/** Text files as lines: universal newlines, the lines of a text, and texts put together from lines. */
module TextFiles {
  // ---------------------------------------------------------------- rows put together

  function Concat(rows: seq<string>): string {
    if rows == [] then "" else rows[0] + Concat(rows[1..])
  }

  lemma {:induction false} ConcatBoth(x: seq<string>, y: seq<string>)
    ensures Concat(x + y) == Concat(x) + Concat(y)
  {
    if x == [] {
      assert x + y == y;
    } else {
      assert (x + y)[1..] == x[1..] + y;
      ConcatBoth(x[1..], y);
    }
  }

  lemma ConcatOne(row: string)
    ensures Concat([row]) == row
  {
    assert [row][1..] == [];
  }

  lemma RestIn(rows: seq<string>)
    requires rows != []
    ensures rows[0] in rows
    ensures forall row {:trigger row in rows[1..]} :: row in rows[1..] ==> row in rows
  {
  }

  // ---------------------------------------------------------------- the lines of a file

  /** Universal newlines: every line ends with "\n". */
  function Universal(content: string): string {
    if content == "" then ""
    else if content[0] == '\r' then
      ['\n'] + Universal(if |content| > 1 && content[1] == '\n' then content[2..] else content[1..])
    else [content[0]] + Universal(content[1..])
  }

  /** The lines of a text, each with its newline, with `line` already read. */
  function LinesFrom(text: string, line: string): seq<string>
    decreases |text|
  {
    if text == "" then (if line == "" then [] else [line])
    else if text[0] == '\n' then [line + ['\n']] + LinesFrom(text[1..], "")
    else LinesFrom(text[1..], line + [text[0]])
  }

  function FileLines(content: string): seq<string> {
    LinesFrom(Universal(content), "")
  }

  predicate NoReturn(s: string) {
    forall i {:trigger s[i]} :: 0 <= i < |s| ==> s[i] != '\r'
  }

  lemma {:induction false} UniversalNoReturn(s: string)
    requires NoReturn(s)
    ensures Universal(s) == s
    decreases |s|
  {
    if s != "" {
      assert s[0] != '\r';
      forall i {:trigger s[1..][i]} | 0 <= i < |s[1..]| ensures s[1..][i] != '\r' {
        assert s[1..][i] == s[i + 1];
      }
      UniversalNoReturn(s[1..]);
      assert [s[0]] + s[1..] == s;
    }
  }

  lemma {:induction false} UniversalHasNoReturn(s: string)
    ensures NoReturn(Universal(s))
    decreases |s|
  {
    if s != "" {
      if s[0] == '\r' {
        UniversalHasNoReturn(if |s| > 1 && s[1] == '\n' then s[2..] else s[1..]);
      } else {
        UniversalHasNoReturn(s[1..]);
      }
    }
  }

  predicate NoNewline(s: string) {
    forall i {:trigger s[i]} :: 0 <= i < |s| ==> s[i] != '\n' && s[i] != '\r'
  }

  lemma NoNewlineConcat(x: string, y: string)
    requires NoNewline(x) && NoNewline(y)
    ensures NoNewline(x + y)
  {
  }

  /** A line with a newline at its end and nowhere else. */
  predicate GoodLine(line: string) {
    line != "" && line[|line| - 1] == '\n' && NoNewline(line[..|line| - 1])
  }

  lemma {:induction false} LineFirst(row: string, rest: string, line: string)
    requires GoodLine(row)
    ensures LinesFrom(row + rest, line) == [line + row] + LinesFrom(rest, "")
    decreases |row|
  {
    var text := row + rest;
    if |row| == 1 {
      assert text[1..] == rest && row == ['\n'];
    } else {
      assert row[..|row| - 1][0] == row[0] && row[0] != '\n';
      var row' := row[1..];
      assert text[1..] == row' + rest;
      forall i {:trigger row'[..|row'| - 1][i]} | 0 <= i < |row'| - 1
        ensures row'[..|row'| - 1][i] != '\n' && row'[..|row'| - 1][i] != '\r'
      {
        assert row'[..|row'| - 1][i] == row[..|row| - 1][i + 1];
      }
      LineFirst(row', rest, line + [row[0]]);
      assert line + [row[0]] + row' == line + row;
    }
  }

  ghost predicate AllGoodLines(rows: seq<string>) {
    forall row {:trigger row in rows} :: row in rows ==> GoodLine(row)
  }

  /** A line of a file: with a newline at its end, or the last one, without. */
  predicate FileLine(line: string) {
    line != "" && NoNewline(line[..|line| - 1]) && line[|line| - 1] != '\r'
  }

  predicate EndsLine(line: string) {
    line != "" && line[|line| - 1] == '\n'
  }

  /** A last line without a newline. */
  predicate Unended(line: string) {
    line != "" && NoNewline(line)
  }

  /** The lines of rows with more text after them are those rows and the lines of that text. */
  lemma {:induction false} LinesOfRows(rows: seq<string>, text: string)
    requires AllGoodLines(rows)
    ensures LinesFrom(Concat(rows) + text, "") == rows + LinesFrom(text, "")
  {
    if rows == [] {
      assert "" + text == text;
    } else {
      RestIn(rows);
      LinesOfRows(rows[1..], text);
      assert Concat(rows) + text == rows[0] + (Concat(rows[1..]) + text);
      LineFirst(rows[0], Concat(rows[1..]) + text, "");
      assert "" + rows[0] == rows[0];
      assert [rows[0]] + rows[1..] == rows;
    }
  }

  lemma {:induction false} ConcatNoReturn(rows: seq<string>, text: string)
    requires AllGoodLines(rows) && NoReturn(text)
    ensures NoReturn(Concat(rows) + text)
  {
    if rows == [] {
      assert "" + text == text;
    } else {
      RestIn(rows);
      ConcatNoReturn(rows[1..], text);
      var row := rows[0];
      forall i {:trigger row[i]} | 0 <= i < |row| ensures row[i] != '\r' {
        if i < |row| - 1 {
          assert row[..|row| - 1][i] == row[i];
        }
      }
      assert Concat(rows) + text == row + (Concat(rows[1..]) + text);
    }
  }

  lemma FileLinesOfConcat(rows: seq<string>)
    requires AllGoodLines(rows)
    ensures FileLines(Concat(rows)) == rows
  {
    ConcatNoReturn(rows, "");
    assert Concat(rows) + "" == Concat(rows);
    UniversalNoReturn(Concat(rows));
    LinesOfRows(rows, "");
  }

  lemma {:induction false} OnlyLine(line: string, begun: string)
    requires NoNewline(line)
    ensures LinesFrom(line, begun) == if begun + line == "" then [] else [begun + line]
    decreases |line|
  {
    if line == "" {
      assert begun + line == begun;
    } else {
      assert line[0] != '\n';
      forall i {:trigger line[1..][i]} | 0 <= i < |line[1..]| ensures line[1..][i] != '\n' && line[1..][i] != '\r' {
        assert line[1..][i] == line[i + 1];
      }
      OnlyLine(line[1..], begun + [line[0]]);
      assert begun + [line[0]] + line[1..] == begun + line;
    }
  }

  lemma FileLinesOfUnended(rows: seq<string>, last: string)
    requires AllGoodLines(rows) && Unended(last)
    ensures FileLines(Concat(rows + [last])) == rows + [last]
  {
    ConcatBoth(rows, [last]);
    ConcatOne(last);
    forall i {:trigger last[i]} | 0 <= i < |last| ensures last[i] != '\r' {
    }
    ConcatNoReturn(rows, last);
    UniversalNoReturn(Concat(rows) + last);
    LinesOfRows(rows, last);
    OnlyLine(last, "");
    assert "" + last == last;
  }

  /** Every line but the last ends with a newline, and none holds another. */
  lemma {:induction false} LinesShape(text: string, line: string)
    requires NoReturn(text) && NoNewline(line)
    ensures forall row {:trigger FileLine(row)} :: row in LinesFrom(text, line) ==> FileLine(row)
    ensures var rows := LinesFrom(text, line); rows != [] ==> AllGoodLines(rows[..|rows| - 1])
    decreases |text|
  {
    if text == "" {
      forall i {:trigger line[i]} | 0 <= i < |line| ensures line[i] != '\r' {
      }
    } else {
      assert text[0] != '\r';
      var rest := text[1..];
      forall i {:trigger rest[i]} | 0 <= i < |rest| ensures rest[i] != '\r' {
        assert rest[i] == text[i + 1];
      }
      if text[0] == '\n' {
        LinesShape(rest, "");
        var rows := LinesFrom(rest, "");
        assert (line + ['\n'])[..|line|] == line;
        assert rows != [] ==> ([line + ['\n']] + rows)[..|rows|] == [line + ['\n']] + rows[..|rows| - 1];
      } else {
        LinesShape(rest, line + [text[0]]);
      }
    }
  }

  lemma FileLinesShape(content: string)
    ensures forall row {:trigger FileLine(row)} :: row in FileLines(content) ==> FileLine(row)
    ensures var rows := FileLines(content); rows != [] ==> AllGoodLines(rows[..|rows| - 1])
  {
    UniversalHasNoReturn(content);
    LinesShape(Universal(content), "");
  }

  // ---------------------------------------------------------------- texts that end with a newline

  /** The text ends with a newline, if it is not empty. */
  predicate Terminated(text: string) {
    text != "" ==> text[|text| - 1] == '\n'
  }

  lemma {:induction false} LinesAreGood(text: string, line: string)
    requires NoReturn(text) && NoNewline(line) && Terminated(text) && (text == "" ==> line == "")
    ensures AllGoodLines(LinesFrom(text, line))
    decreases |text|
  {
    if text != "" {
      assert text[0] != '\r';
      var rest := text[1..];
      forall i {:trigger rest[i]} | 0 <= i < |rest| ensures rest[i] != '\r' {
        assert rest[i] == text[i + 1];
      }
      if text[0] == '\n' {
        LinesAreGood(rest, "");
        assert (line + ['\n'])[..|line|] == line;
      } else {
        LinesAreGood(rest, line + [text[0]]);
      }
    }
  }

  lemma FileLinesAreGood(content: string)
    requires Terminated(Universal(content))
    ensures AllGoodLines(FileLines(content))
  {
    UniversalHasNoReturn(content);
    LinesAreGood(Universal(content), "");
  }

  lemma {:induction false} UniversalTerminated(s: string)
    requires Terminated(s)
    ensures Terminated(Universal(s))
    decreases |s|
  {
    if |s| > 1 {
      if s[0] == '\r' {
        UniversalTerminated(if s[1] == '\n' then s[2..] else s[1..]);
      } else {
        UniversalTerminated(s[1..]);
        assert Universal(s[1..]) != "";
      }
    } else if |s| == 1 {
      assert s[1..] == "";
    }
  }

  lemma {:induction false} UniversalConcat(x: string, y: string)
    requires Terminated(x)
    ensures Universal(x + y) == Universal(x) + Universal(y)
    decreases |x|
  {
    if x == "" {
      assert x + y == y;
    } else if x[0] == '\r' {
      assert |x| > 1;
      var rest := if x[1] == '\n' then x[2..] else x[1..];
      assert (x + y)[1] == x[1] && (if x[1] == '\n' then (x + y)[2..] else (x + y)[1..]) == rest + y;
      UniversalConcat(rest, y);
    } else {
      assert (x + y)[1..] == x[1..] + y;
      UniversalConcat(x[1..], y);
    }
  }

  lemma {:induction false} LinesFromConcat(x: string, y: string, line: string)
    requires Terminated(x) && (x == "" ==> line == "")
    ensures LinesFrom(x + y, line) == LinesFrom(x, line) + LinesFrom(y, "")
    decreases |x|
  {
    if x == "" {
      assert x + y == y;
    } else {
      assert (x + y)[1..] == x[1..] + y;
      LinesFromConcat(x[1..], y, if x[0] == '\n' then "" else line + [x[0]]);
    }
  }

  lemma FileLinesOfOne(row: string)
    requires GoodLine(row)
    ensures FileLines(row) == [row]
  {
    ConcatOne(row);
    FileLinesOfConcat([row]);
  }
}
