/** Strings: decimal numbers, lines and joining. */
module Text {

  function Digit(n: nat): char
    requires n < 10
  {
    "0123456789"[n]
  }

  /** The way a non-negative number is printed by "%d". */
  function Decimal(n: nat): string {
    if n < 10 then [Digit(n)] else Decimal(n / 10) + [Digit(n % 10)]
  }

  function DigitValue(c: char): nat {
    if '0' <= c <= '9' then c as nat - '0' as nat else 0
  }

  function Value(s: string): nat {
    if s == [] then 0 else 10 * Value(s[..|s| - 1]) + DigitValue(s[|s| - 1])
  }

  /** Digits, of which the first is no zero unless it is the only one. */
  predicate IsDecimal(s: string) {
    s != "" && (|s| > 1 ==> s[0] != '0') && forall i :: 0 <= i < |s| ==> '0' <= s[i] <= '9'
  }

  /** Reading a printed number back gives the number, so no two numbers print alike. */
  lemma {:induction false} DecimalValue(n: nat)
    ensures Value(Decimal(n)) == n
    ensures IsDecimal(Decimal(n))
  {
    if n < 10 {
      assert Value([Digit(n)]) == DigitValue(Digit(n)) by {
        assert [Digit(n)][..0] == [];
      }
    } else {
      DecimalValue(n / 10);
      assert (Decimal(n / 10) + [Digit(n % 10)])[..|Decimal(n / 10)|] == Decimal(n / 10);
    }
  }

  /** str.split at a character, with `part` already read. */
  function SplitFrom(c: char, s: string, part: string): seq<string>
    decreases |s|
  {
    if s == "" then [part]
    else if s[0] == c then [part] + SplitFrom(c, s[1..], "")
    else SplitFrom(c, s[1..], part + [s[0]])
  }

  // ---------------------------------------------------------------- lines

  /** The characters at which str.splitlines ends a line. */
  predicate IsLineBreak(c: char) {
    c in {'\n', '\r', '\U{000B}', '\U{000C}', '\U{001C}', '\U{001D}', '\U{001E}', '\U{0085}', '\U{2028}', '\U{2029}'}
  }

  predicate OneLine(s: string) {
    forall c | c in s :: !IsLineBreak(c)
  }

  /** str.splitlines, with `line` already read. */
  function SplitLinesFrom(s: string, line: string): seq<string> {
    if s == [] then (if line == [] then [] else [line])
    else if IsLineBreak(s[0]) then
      [line] + SplitLinesFrom(if s[0] == '\r' && |s| > 1 && s[1] == '\n' then s[2..] else s[1..], [])
    else SplitLinesFrom(s[1..], line + [s[0]])
  }

  function SplitLines(s: string): seq<string> {
    SplitLinesFrom(s, [])
  }

  lemma {:induction false} SplitOneLine(s: string, rest: string, line: string)
    requires OneLine(s)
    ensures SplitLinesFrom(s + rest, line) == SplitLinesFrom(rest, line + s)
  {
    if s == [] {
      assert s + rest == rest && line + s == line;
    } else {
      assert (s + rest)[1..] == s[1..] + rest;
      assert line + [s[0]] + s[1..] == line + s;
      SplitOneLine(s[1..], rest, line + [s[0]]);
    }
  }

  /** One line taken off the front of a text. */
  lemma SplitFirst(row: string, rest: string)
    requires OneLine(row)
    ensures SplitLines(row + "\n" + rest) == [row] + SplitLines(rest)
  {
    assert row + "\n" + rest == row + ("\n" + rest);
    SplitOneLine(row, "\n" + rest, []);
    assert [] + row == row;
    assert ("\n" + rest)[1..] == rest;
  }

  /** Every row ended by a newline. */
  function Unlines(rows: seq<string>): string {
    if rows == [] then "" else rows[0] + "\n" + Unlines(rows[1..])
  }

  lemma {:induction false} SplitUnlines(rows: seq<string>)
    requires forall row | row in rows :: OneLine(row)
    ensures SplitLines(Unlines(rows)) == rows
  {
    if rows != [] {
      SplitFirst(rows[0], Unlines(rows[1..]));
      SplitUnlines(rows[1..]);
    }
  }

  lemma {:induction false} UnlinesConcat(x: seq<string>, y: seq<string>)
    ensures Unlines(x + y) == Unlines(x) + Unlines(y)
  {
    if x == [] {
      assert x + y == y;
    } else {
      assert (x + y)[1..] == x[1..] + y;
      UnlinesConcat(x[1..], y);
    }
  }

  /** str.rstrip of newlines. */
  function StripNewlines(s: string): string {
    if s != [] && s[|s| - 1] == '\n' then StripNewlines(s[..|s| - 1]) else s
  }

  lemma SplitSingle(s: string)
    requires OneLine(s) && s != ""
    ensures SplitLines(s) == [s]
  {
    SplitOneLine(s, "", []);
    assert s + "" == s && [] + s == s;
  }

  /** A text whose last row is not empty loses exactly its last newline, and its rows can be read off it. */
  lemma {:induction false} StrippedRows(rows: seq<string>)
    requires rows != [] && forall row | row in rows :: OneLine(row) && row != ""
    ensures SplitLines(StripNewlines(Unlines(rows))) == rows
  {
    var last := rows[|rows| - 1];
    var init := rows[..|rows| - 1];
    assert rows == init + [last];
    UnlinesConcat(init, [last]);
    var text := Unlines(init) + last;
    assert Unlines([last]) == last + "\n";
    assert Unlines(rows) == text + "\n";
    assert last in rows && last[|last| - 1] in last && text[|text| - 1] == last[|last| - 1];
    assert StripNewlines(text) == text;
    assert (text + "\n")[..|text|] == text;
    SplitAllButLast(init, last);
  }

  lemma {:induction false} SplitAllButLast(init: seq<string>, last: string)
    requires OneLine(last) && last != "" && forall row | row in init :: OneLine(row)
    ensures SplitLines(Unlines(init) + last) == init + [last]
  {
    if init == [] {
      assert Unlines(init) + last == last;
      SplitSingle(last);
    } else {
      var rest := Unlines(init[1..]) + last;
      assert Unlines(init) + last == init[0] + "\n" + rest;
      SplitFirst(init[0], rest);
      SplitAllButLast(init[1..], last);
    }
  }

  // ---------------------------------------------------------------- letters and digits

  const LOWER := "abcdefghijklmnopqrstuvwxyz"
  const UPPER := "ABCDEFGHIJKLMNOPQRSTUVWXYZ"
  const DIGITS := "0123456789"

  lemma InLower(c: char)
    ensures c in LOWER <==> 'a' <= c <= 'z'
  {
    if 'a' <= c <= 'z' {
      assert LOWER[c as int - 'a' as int] == c;
    }
  }

  lemma InUpper(c: char)
    ensures c in UPPER <==> 'A' <= c <= 'Z'
  {
    if 'A' <= c <= 'Z' {
      assert UPPER[c as int - 'A' as int] == c;
    }
  }

  lemma InDigits(c: char)
    ensures c in DIGITS <==> '0' <= c <= '9'
  {
    if '0' <= c <= '9' {
      assert DIGITS[c as int - '0' as int] == c;
    }
  }
}
