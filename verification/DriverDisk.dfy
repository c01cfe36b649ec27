/** The shared files of driver disk requests: appending lines, and reading them back. */
module DriverDisk {
  import opened TextFiles
  import Text

  // ---------------------------------------------------------------- lines of a file

  /** What append_line adds to a file. */
  function Row(line: string): string {
    if line != "" && line[|line| - 1] == '\n' then line else line + ['\n']
  }

  /** append_line. */
  function AppendLine(content: string, line: string): string {
    content + Row(line)
  }

  function StripAll(rows: seq<string>): seq<string> {
    if rows == [] then [] else [Text.StripNewlines(rows[0])] + StripAll(rows[1..])
  }

  /** read_lines; a missing file has no lines, like an empty one. */
  function ReadLines(content: string): seq<string> {
    StripAll(FileLines(content))
  }

  function RowsOf(lines: seq<string>): seq<string> {
    if lines == [] then [] else [Row(lines[0])] + RowsOf(lines[1..])
  }

  /** The file after a line was appended for each of these. */
  function AppendAll(lines: seq<string>): string {
    Concat(RowsOf(lines))
  }

  ghost predicate Clean(lines: seq<string>) {
    forall line {:trigger line in lines} :: line in lines ==> NoNewline(line)
  }

  lemma RowOfClean(line: string)
    requires NoNewline(line)
    ensures Row(line) == line + ['\n'] && GoodLine(Row(line)) && Text.StripNewlines(Row(line)) == line
  {
    var row := line + ['\n'];
    assert row[..|line|] == line;
    assert line != "" ==> line[|line| - 1] != '\n';
  }

  lemma {:induction false} CleanRows(lines: seq<string>)
    requires Clean(lines)
    ensures AllGoodLines(RowsOf(lines)) && StripAll(RowsOf(lines)) == lines
  {
    if lines != [] {
      RestIn(lines);
      RowOfClean(lines[0]);
      CleanRows(lines[1..]);
      assert [lines[0]] + lines[1..] == lines;
    }
  }

  lemma StripGoodLine(row: string)
    requires GoodLine(row)
    ensures NoNewline(Text.StripNewlines(row))
  {
    var front := row[..|row| - 1];
    assert front != "" ==> front[|front| - 1] != '\n';
    assert Text.StripNewlines(row) == front;
  }

  lemma {:induction false} StrippedAreClean(rows: seq<string>)
    requires AllGoodLines(rows)
    ensures Clean(StripAll(rows))
  {
    if rows != [] {
      RestIn(rows);
      StripGoodLine(rows[0]);
      StrippedAreClean(rows[1..]);
    }
  }

  lemma {:induction false} AppendAllTerminated(lines: seq<string>)
    ensures Terminated(AppendAll(lines))
  {
    if lines != [] {
      AppendAllTerminated(lines[1..]);
      var row := Row(lines[0]);
      var rest := AppendAll(lines[1..]);
      if rest == "" {
        assert AppendAll(lines) == row;
      } else {
        assert (row + rest)[|row + rest| - 1] == rest[|rest| - 1];
      }
    }
  }

  /** What is read from the file is what was given to append_line exactly if it holds no newline and no carriage
      return. */
  lemma ReadIsAppended(lines: seq<string>)
    ensures ReadLines(AppendAll(lines)) == lines <==> Clean(lines)
  {
    if Clean(lines) {
      CleanRows(lines);
      FileLinesOfConcat(RowsOf(lines));
    }
    AppendAllTerminated(lines);
    UniversalTerminated(AppendAll(lines));
    FileLinesAreGood(AppendAll(lines));
    StrippedAreClean(FileLines(AppendAll(lines)));
  }

  /** The lines that appending a request adds to the file: the request itself, if it holds no line break. */
  function LinesOf(request: string): seq<string> {
    ReadLines(Row(request))
  }

  lemma CleanRequest(request: string)
    requires NoNewline(request)
    ensures LinesOf(request) == [request]
  {
    RowOfClean(request);
    FileLinesOfOne(Row(request));
    assert [Row(request)][1..] == [];
    assert StripAll([Row(request)]) == [Text.StripNewlines(Row(request))];
  }

  lemma {:induction false} StripConcat(x: seq<string>, y: seq<string>)
    ensures StripAll(x + y) == StripAll(x) + StripAll(y)
  {
    if x == [] {
      assert x + y == y;
    } else {
      assert (x + y)[1..] == x[1..] + y;
      StripConcat(x[1..], y);
    }
  }

  lemma RowTerminated(line: string)
    ensures Terminated(Row(line))
  {
  }

  /** Appending to a file that was only appended to adds the lines of the request. */
  lemma ReadAfterAppend(content: string, request: string)
    requires Terminated(content)
    ensures ReadLines(AppendLine(content, request)) == ReadLines(content) + LinesOf(request)
    ensures Terminated(AppendLine(content, request))
  {
    var row := Row(request);
    RowTerminated(request);
    UniversalConcat(content, row);
    UniversalTerminated(content);
    LinesFromConcat(Universal(content), Universal(row), "");
    StripConcat(FileLines(content), FileLines(row));
    assert (content + row)[|content + row| - 1] == row[|row| - 1];
  }

  /** A newline is added only to a line that has none at its end. */
  lemma AppendedOnce(content: string, line: string)
    requires line == "" || line[|line| - 1] != '\n'
    ensures AppendLine(content, line) == content + (line + ['\n']) == AppendLine(content, line + ['\n'])
  {
  }
}
