/** The multi-line summary of a task queue, and that it determines the shape of the tree. */
module TaskSummary {
  import opened Text
  import opened TaskTree

  /** summary: a task's is one line, a queue's one line for itself and one for each item below it. */
  function Summary(t: Tree, top: bool): string
    decreases t
  {
    match t
    case Task(name, _) => "Task: " + name
    case Queue(name, items) =>
      if top then StripNewlines(TopHeader(t) + ItemLines(items))
      else "Task queue: " + name + "\n" + ItemLines(items)
  }

  function TitleRow(t: Tree): string {
    "Top-level task queue: " + t.name
  }

  function QueuesRow(n: nat): string {
    "Number of task queues: " + Decimal(n)
  }

  function TasksRow(n: nat): string {
    "Number of tasks: " + Decimal(n)
  }

  const LISTING := "Task & task group listing:"

  function TopHeader(t: Tree): string
    requires t.Queue?
  {
    TitleRow(t) + "\n" + QueuesRow(QueuesIn(t.items)) + "\n" + TasksRow(TasksIn(t.items)) + "\n" + LISTING + "\n"
  }

  /** The lines of the items' summaries, each indented by one space. */
  function ItemLines(items: seq<Tree>): string
    decreases items
  {
    if items == [] then ""
    else IndentedLines(SplitLines(Summary(items[0], false))) + ItemLines(items[1..])
  }

  function IndentedLines(lines: seq<string>): string {
    if lines == [] then "" else " " + lines[0] + "\n" + IndentedLines(lines[1..])
  }

  // ---------------------------------------------------------------- the rows of a summary

  predicate OneLineNames(t: Tree) {
    OneLine(t.name) && (t.Queue? ==> forall i | 0 <= i < |t.items| :: OneLineNames(t.items[i]))
  }

  function Rows(t: Tree): seq<string>
    decreases t
  {
    match t
    case Task(name, _) => ["Task: " + name]
    case Queue(name, items) => ["Task queue: " + name] + Indent(RowsIn(items))
  }

  function RowsIn(items: seq<Tree>): seq<string>
    decreases items
  {
    if items == [] then [] else Rows(items[0]) + RowsIn(items[1..])
  }

  function Indent(rows: seq<string>): (r: seq<string>)
    ensures |r| == |rows| && forall i | 0 <= i < |rows| :: r[i] == " " + rows[i]
  {
    if rows == [] then [] else [" " + rows[0]] + Indent(rows[1..])
  }

  lemma {:induction false} IndentConcat(x: seq<string>, y: seq<string>)
    ensures Indent(x + y) == Indent(x) + Indent(y)
  {
  }

  lemma {:induction false} IndentedUnlines(rows: seq<string>)
    ensures IndentedLines(rows) == Unlines(Indent(rows))
  {
    if rows != [] {
      IndentedUnlines(rows[1..]);
    }
  }

  /** Names without line breaks give rows without line breaks. */
  lemma {:induction false} RowsAreLines(t: Tree)
    requires OneLineNames(t)
    ensures forall row | row in Rows(t) :: OneLine(row) && row != ""
    decreases t, 0
  {
    if t.Queue? {
      RowsInAreLines(t.items);
      IndentIsLines(RowsIn(t.items));
    }
  }

  lemma {:induction false} RowsInAreLines(items: seq<Tree>)
    requires forall i | 0 <= i < |items| :: OneLineNames(items[i])
    ensures forall row | row in RowsIn(items) :: OneLine(row) && row != ""
    decreases items, 1
  {
    if items != [] {
      RowsAreLines(items[0]);
      RowsInAreLines(items[1..]);
    }
  }

  /** The lines of a nested summary are its rows. */
  lemma {:induction false} SummaryRows(t: Tree)
    requires OneLineNames(t)
    ensures SplitLines(Summary(t, false)) == Rows(t)
    decreases t, 0
  {
    match t
    case Task(name, _) =>
      SplitSingle("Task: " + name);
    case Queue(name, items) =>
      ItemLinesRows(items);
      SplitFirst("Task queue: " + name, ItemLines(items));
      RowsAreLines(t);
      SplitUnlines(Indent(RowsIn(items)));
  }

  lemma {:induction false} ItemLinesRows(items: seq<Tree>)
    requires forall i | 0 <= i < |items| :: OneLineNames(items[i])
    ensures ItemLines(items) == Unlines(Indent(RowsIn(items)))
    decreases items, 1
  {
    if items != [] {
      SummaryRows(items[0]);
      ItemLinesRows(items[1..]);
      IndentedUnlines(Rows(items[0]));
      IndentConcat(Rows(items[0]), RowsIn(items[1..]));
      UnlinesConcat(Indent(Rows(items[0])), Indent(RowsIn(items[1..])));
    }
  }

  function HeaderRows(t: Tree): seq<string>
    requires t.Queue?
  {
    [TitleRow(t), QueuesRow(QueuesIn(t.items)), TasksRow(TasksIn(t.items)), LISTING]
  }

  /** The lines of a top-level summary. */
  function TopRows(t: Tree): seq<string>
    requires t.Queue?
  {
    HeaderRows(t) + Indent(RowsIn(t.items))
  }

  lemma {:induction false} DecimalIsLine(n: nat)
    ensures OneLine(Decimal(n))
  {
    if n >= 10 {
      DecimalIsLine(n / 10);
    }
  }

  lemma HeaderIsLines(t: Tree)
    requires t.Queue? && OneLine(t.name)
    ensures forall row | row in HeaderRows(t) :: OneLine(row) && row != ""
  {
    DecimalIsLine(QueuesIn(t.items));
    DecimalIsLine(TasksIn(t.items));
  }

  lemma FourRows(a: string, b: string, c: string, d: string)
    ensures Unlines([a, b, c, d]) == a + "\n" + b + "\n" + c + "\n" + d + "\n"
  {
    assert [a, b, c, d][1..] == [b, c, d] && [b, c, d][1..] == [c, d] && [c, d][1..] == [d] && [d][1..] == [];
    assert Unlines([d]) == d + "\n" + "";
    assert Unlines([c, d]) == c + "\n" + Unlines([d]);
    assert Unlines([b, c, d]) == b + "\n" + Unlines([c, d]);
  }

  lemma {:induction false} IndentIsLines(rows: seq<string>)
    requires forall row | row in rows :: OneLine(row)
    ensures forall row | row in Indent(rows) :: OneLine(row) && row != ""
  {
    forall row | row in Indent(rows) ensures OneLine(row) && row != "" {
      var i :| 0 <= i < |rows| && row == Indent(rows)[i];
      assert rows[i] in rows;
    }
  }

  /** A top-level summary has four lines of its own and one for each nested task or queue. */
  lemma TopSummaryRows(t: Tree)
    requires t.Queue? && OneLineNames(t)
    ensures SplitLines(Summary(t, true)) == TopRows(t)
    ensures |TopRows(t)| == 4 + QueuesIn(t.items) + TasksIn(t.items)
  {
    HeaderIsLines(t);
    RowsInAreLines(t.items);
    IndentIsLines(RowsIn(t.items));
    ItemLinesRows(t.items);
    FourRows(TitleRow(t), QueuesRow(QueuesIn(t.items)), TasksRow(TasksIn(t.items)), LISTING);
    UnlinesConcat(HeaderRows(t), Indent(RowsIn(t.items)));
    StrippedRows(TopRows(t));
    RowCount(t.items);
  }

  lemma {:induction false} RowCount(items: seq<Tree>)
    ensures |RowsIn(items)| == QueuesIn(items) + TasksIn(items)
    decreases items, 1
  {
    if items != [] {
      if items[0].Queue? {
        RowCount(items[0].items);
      }
      RowCount(items[1..]);
    }
  }

  // ---------------------------------------------------------------- the tree behind a summary

  /** Two trees with the same kinds, names and order of items; only the callables may differ. */
  predicate SameShape(t: Tree, u: Tree) {
    t.Task? == u.Task? && t.name == u.name &&
    (t.Queue? ==> |t.items| == |u.items| && forall i | 0 <= i < |t.items| :: SameShape(t.items[i], u.items[i]))
  }

  /** The row of a nested item starts with a blank, the row of an item does not. */
  lemma FirstRow(items: seq<Tree>)
    requires items != []
    ensures RowsIn(items) != [] && RowsIn(items)[0] == Rows(items[0])[0] && RowsIn(items)[0][0] == 'T'
  {
  }

  lemma HeadRow(t: Tree, u: Tree)
    requires Rows(t)[0] == Rows(u)[0]
    ensures t.Task? == u.Task? && t.name == u.name
  {
    var x, y := Rows(t)[0], Rows(u)[0];
    assert x[4] == if t.Task? then ':' else ' ';
    assert y[4] == if u.Task? then ':' else ' ';
    var n := if t.Task? then 6 else 12;
    assert t.name == x[n..] && u.name == y[n..];
  }

  function RowsBelow(t: Tree): seq<string> {
    if t.Task? then [] else RowsIn(t.items)
  }

  /** How many rows at the front are indented. */
  function Indented(rows: seq<string>): nat {
    if rows != [] && rows[0] != "" && rows[0][0] == ' ' then 1 + Indented(rows[1..]) else 0
  }

  predicate StartsAtMargin(rows: seq<string>) {
    rows != [] ==> rows[0] != "" && rows[0][0] == 'T'
  }

  lemma {:induction false} IndentedPrefix(x: seq<string>, r: seq<string>)
    requires StartsAtMargin(r)
    ensures Indented(Indent(x) + r) == |x|
  {
    if x == [] {
      assert Indent(x) + r == r;
    } else {
      IndentedPrefix(x[1..], r);
      assert (Indent(x) + r)[1..] == Indent(x[1..]) + r;
    }
  }

  /** An indented block ends where the indentation ends. */
  lemma IndentedBlock(x: seq<string>, r: seq<string>, y: seq<string>, q: seq<string>)
    requires Indent(x) + r == Indent(y) + q && StartsAtMargin(r) && StartsAtMargin(q)
    ensures x == y && r == q
  {
    var all := Indent(x) + r;
    IndentedPrefix(x, r);
    IndentedPrefix(y, q);
    forall i | 0 <= i < |x| ensures x[i] == y[i] {
      assert Indent(x)[i] == all[i] == Indent(y)[i];
      assert x[i] == all[i][1..] && y[i] == all[i][1..];
    }
    assert r == all[|x|..] && q == all[|y|..];
  }

  lemma MarginRow(items: seq<Tree>)
    ensures StartsAtMargin(RowsIn(items))
  {
    if items != [] {
      FirstRow(items);
    }
  }

  lemma RowsTail(items: seq<Tree>)
    requires items != []
    ensures RowsIn(items) != [] && RowsIn(items)[1..] == Indent(RowsBelow(items[0])) + RowsIn(items[1..])
  {
  }

  /** Equal rows of two nonempty lists of items have equal parts. */
  lemma SplitRows(x: seq<Tree>, y: seq<Tree>)
    requires x != [] && y != [] && RowsIn(x) == RowsIn(y)
    ensures x[0].Task? == y[0].Task? && x[0].name == y[0].name
    ensures RowsBelow(x[0]) == RowsBelow(y[0]) && RowsIn(x[1..]) == RowsIn(y[1..])
  {
    FirstRow(x);
    FirstRow(y);
    HeadRow(x[0], y[0]);
    MarginRow(x[1..]);
    MarginRow(y[1..]);
    RowsTail(x);
    RowsTail(y);
    IndentedBlock(RowsBelow(x[0]), RowsIn(x[1..]), RowsBelow(y[0]), RowsIn(y[1..]));
  }

  /** Equal rows come from trees of the same shape. */
  lemma {:induction false} RowsDetermine(x: seq<Tree>, y: seq<Tree>)
    requires RowsIn(x) == RowsIn(y)
    ensures |x| == |y| && forall i | 0 <= i < |x| :: SameShape(x[i], y[i])
    decreases x
  {
    if x == [] || y == [] {
      if x != [] {
        FirstRow(x);
      }
      if y != [] {
        FirstRow(y);
      }
    } else {
      SplitRows(x, y);
      if x[0].Queue? {
        RowsDetermine(x[0].items, y[0].items);
      }
      RowsDetermine(x[1..], y[1..]);
      assert forall i | 0 < i < |x| :: x[i] == x[1..][i - 1] && y[i] == y[1..][i - 1];
    }
  }

  /** Two top-level queues with equal summaries have the same shape, kinds and names. */
  lemma SummaryDetermines(t: Tree, u: Tree)
    requires t.Queue? && u.Queue? && OneLineNames(t) && OneLineNames(u)
    requires Summary(t, true) == Summary(u, true)
    ensures SameShape(t, u)
  {
    TopSummaryRows(t);
    TopSummaryRows(u);
    var x, y := TopRows(t), TopRows(u);
    assert TitleRow(t) == x[0] == y[0] == TitleRow(u);
    assert t.name == TitleRow(t)[22..] && u.name == TitleRow(u)[22..];
    assert Indent(RowsIn(t.items)) == x[4..] && Indent(RowsIn(u.items)) == y[4..];
    assert Indent(RowsIn(t.items)) + [] == Indent(RowsIn(u.items)) + [];
    IndentedBlock(RowsIn(t.items), [], RowsIn(u.items), []);
    RowsDetermine(t.items, u.items);
  }

  // ---------------------------------------------------------------- which row is about which item

  /** The items at or below the one at p, each queue before what it contains. */
  function NodePaths(t: Tree, p: Path): seq<Path>
    decreases t
  {
    [p] + if t.Task? then [] else NodesFrom(t.items, p, 0)
  }

  function NodesFrom(items: seq<Tree>, p: Path, i: nat): seq<Path>
    requires i <= |items|
    decreases items, |items| - i
  {
    if i == |items| then [] else NodePaths(items[i], p + [i]) + NodesFrom(items, p, i + 1)
  }

  function Spaces(n: nat): string {
    if n == 0 then "" else " " + Spaces(n - 1)
  }

  function Label(t: Tree): string {
    (if t.Task? then "Task: " else "Task queue: ") + t.name
  }

  /** The row is that of the item at q, indented as deep as q is below p. */
  ghost predicate IsRowOf(row: string, t: Tree, p: Path, q: Path) {
    p <= q && Has(t, q[|p|..]) && row == Spaces(|q| - |p|) + Label(Sub(t, q[|p|..]))
  }

  lemma Deeper(row: string, t: Tree, p: Path, i: nat, q: Path)
    requires t.Queue? && i < |t.items| && IsRowOf(row, t.items[i], p + [i], q)
    ensures IsRowOf(" " + row, t, p, q)
  {
    assert q[|p|] == (p + [i])[|p|] == i;
    assert q[|p|..][1..] == q[|p| + 1..];
    var n := |q| - |p|;
    var text := Label(Sub(t, q[|p|..]));
    assert " " + (Spaces(n - 1) + text) == (" " + Spaces(n - 1)) + text;
  }

  lemma {:induction false} RowsOf(t: Tree, p: Path)
    ensures |Rows(t)| == |NodePaths(t, p)|
    ensures forall k | 0 <= k < |Rows(t)| :: IsRowOf(Rows(t)[k], t, p, NodePaths(t, p)[k])
    decreases t, 0
  {
    assert p[|p|..] == [] && Spaces(0) + Label(t) == Label(t);
    if t.Queue? {
      RowsInOf(t, p, 0);
      assert t.items[0..] == t.items;
    }
  }

  lemma {:induction false} RowsInOf(t: Tree, p: Path, i: nat)
    requires t.Queue? && i <= |t.items|
    ensures var rows := RowsIn(t.items[i..]);
            && |rows| == |NodesFrom(t.items, p, i)|
            && forall k | 0 <= k < |rows| :: IsRowOf(" " + rows[k], t, p, NodesFrom(t.items, p, i)[k])
    decreases t, 0, |t.items| - i
  {
    if i < |t.items| {
      var first, nodes := Rows(t.items[i]), NodePaths(t.items[i], p + [i]);
      assert t.items[i..][1..] == t.items[i + 1..];
      RowsOf(t.items[i], p + [i]);
      RowsInOf(t, p, i + 1);
      forall k | 0 <= k < |first| ensures IsRowOf(" " + first[k], t, p, nodes[k]) {
        Deeper(first[k], t, p, i, nodes[k]);
      }
    }
  }

  /** The lines of a top-level summary: the title, the two counts, the heading, and one line for each item below the
      queue, depth first, indented by its depth. */
  lemma TopSummaryLines(t: Tree)
    requires t.Queue? && OneLineNames(t)
    ensures var lines := SplitLines(Summary(t, true));
            var nodes := NodesFrom(t.items, [], 0);
            && |lines| == 4 + |nodes| == 4 + QueuesIn(t.items) + TasksIn(t.items)
            && lines[0] == "Top-level task queue: " + t.name
            && lines[1] == "Number of task queues: " + Decimal(QueuesIn(t.items))
            && lines[2] == "Number of tasks: " + Decimal(TasksIn(t.items))
            && lines[3] == "Task & task group listing:"
            && forall k | 0 <= k < |nodes| ::
                 Has(t, nodes[k]) && lines[4 + k] == Spaces(|nodes[k]|) + Label(Sub(t, nodes[k]))
  {
    TopSummaryRows(t);
    RowsInOf(t, [], 0);
    assert t.items[0..] == t.items;
    var rows, nodes := RowsIn(t.items), NodesFrom(t.items, [], 0);
    forall k | 0 <= k < |nodes|
      ensures Has(t, nodes[k]) && TopRows(t)[4 + k] == Spaces(|nodes[k]|) + Label(Sub(t, nodes[k]))
    {
      assert IsRowOf(" " + rows[k], t, [], nodes[k]) && nodes[k][0..] == nodes[k];
      assert TopRows(t)[4 + k] == Indent(rows)[k];
    }
  }

  /** Each item below the queue has a line. */
  lemma {:induction false} EveryNode(t: Tree, p: Path, q: Path)
    ensures p + q in NodePaths(t, p) <==> Has(t, q)
    decreases t, 0
  {
    NodesBelow(t, p);
    if q == [] {
      assert p + q == p;
    } else {
      assert p + q != p;
      if t.Queue? {
        EveryNodeFrom(t, p, 0, q);
      }
    }
  }

  lemma {:induction false} NodesBelow(t: Tree, p: Path)
    ensures forall q :: q in NodePaths(t, p) ==> p <= q
    decreases t, 0
  {
    if t.Queue? {
      NodesBelowFrom(t, p, 0);
    }
  }

  lemma {:induction false} NodesBelowFrom(t: Tree, p: Path, i: nat)
    requires t.Queue? && i <= |t.items|
    ensures forall q :: q in NodesFrom(t.items, p, i) ==> p < q && q[|p|] >= i
    decreases t, 0, |t.items| - i
  {
    if i < |t.items| {
      NodesBelow(t.items[i], p + [i]);
      NodesBelowFrom(t, p, i + 1);
      forall q | q in NodePaths(t.items[i], p + [i]) ensures p < q && q[|p|] == i {
        assert q[|p|] == (p + [i])[|p|];
      }
    }
  }

  lemma {:induction false} EveryNodeFrom(t: Tree, p: Path, i: nat, q: Path)
    requires t.Queue? && i <= |t.items| && q != []
    ensures p + q in NodesFrom(t.items, p, i) <==> q[0] >= i && Has(t, q)
    decreases t, 0, |t.items| - i
  {
    if i < |t.items| {
      EveryNodeFrom(t, p, i + 1, q);
      if q[0] == i {
        EveryNode(t.items[i], p + [i], q[1..]);
        assert p + [i] + q[1..] == p + q;
      } else {
        NotInItem(t.items[i], p, i, q);
      }
    }
  }

  lemma NotInItem(n: Tree, p: Path, i: nat, q: Path)
    requires q != [] && q[0] != i
    ensures p + q !in NodePaths(n, p + [i])
  {
    NodesBelow(n, p + [i]);
    assert (p + q)[|p|] != (p + [i])[|p|];
  }
}
