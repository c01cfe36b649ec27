/** The editor of sh-like configuration files: KEY=VALUE lines are edited, all other lines are kept. */
module SimpleConfig {
  import opened Prelude
  import opened TextFiles
  import opened Whitespace
  import Shlex

  /** The characters a character decomposes to, of which only ASCII characters are left. The normalization of a string
      only reorders combining marks beyond that, and none of these is an ASCII character. */
  type Fold = char -> string

  datatype Flags = Flags(readUnquote: bool, writeQuote: bool, alwaysQuote: bool, fold: Fold)

  // ---------------------------------------------------------------- comments

  /** The open quote after a character. */
  function NextQuote(quote: Option<char>, c: char): Option<char> {
    if !Shlex.IsQuote(c) then quote
    else if quote == Some(c) then None
    else if quote == None then Some(c)
    else quote
  }

  /** The open quote after a string. */
  function QuoteAfter(s: string, quote: Option<char>): Option<char> {
    if s == "" then quote else QuoteAfter(s[1..], NextQuote(quote, s[0]))
  }

  /** Where the first # outside quotes is, starting inside a quote or not. */
  function FindFrom(s: string, quote: Option<char>): (r: Option<nat>)
    ensures r.Some? ==> r.value < |s| && s[r.value] == '#'
  {
    if s == "" then None
    else if quote == None && s[0] == '#' then Some(0)
    else match FindFrom(s[1..], NextQuote(quote, s[0]))
         case Some(i) => Some(i + 1)
         case None => None
  }

  function FindComment(s: string): Option<nat> {
    FindFrom(s, None)
  }

  predicate CommentAt(s: string, i: nat) {
    i < |s| && s[i] == '#' && QuoteAfter(s[..i], None) == None
  }

  lemma {:induction false} QuoteAfterNext(s: string, quote: Option<char>, c: char)
    ensures QuoteAfter(s + [c], quote) == NextQuote(QuoteAfter(s, quote), c)
  {
    if s == "" {
      assert s + [c] == [c];
      assert [c][1..] == "";
    } else {
      assert (s + [c])[1..] == s[1..] + [c];
      QuoteAfterNext(s[1..], NextQuote(quote, s[0]), c);
    }
  }

  /** find_comment: the loop over the characters. */
  method FindCommentIndex(s: string) returns (r: Option<nat>)
    ensures r == FindComment(s)
    ensures r.Some? ==> CommentAt(s, r.value)
    ensures forall j :: 0 <= j < |s| && CommentAt(s, j) ==> r.Some? && r.value <= j
  {
    FindCommentIsFirst(s);
    var quote: Option<char> := None;
    var i := 0;
    assert s[..0] == "";
    while i < |s|
      invariant 0 <= i <= |s|
      invariant quote == QuoteAfter(s[..i], None)
      invariant forall j :: 0 <= j < i ==> !CommentAt(s, j)
    {
      if quote == None && s[i] == '#' {
        assert CommentAt(s, i);
        return Some(i);
      }
      QuoteAfterNext(s[..i], None, s[i]);
      assert s[..i + 1] == s[..i] + [s[i]];
      if Shlex.IsQuote(s[i]) {
        if quote == Some(s[i]) {
          quote := None;
        } else if quote == None {
          quote := Some(s[i]);
        }
      }
      i := i + 1;
    }
    r := None;
  }

  /** Looking for a comment in two parts. */
  lemma {:induction false} FindConcat(x: string, y: string, quote: Option<char>)
    ensures FindFrom(x + y, quote) ==
            match FindFrom(x, quote)
            case Some(i) => Some(i)
            case None => match FindFrom(y, QuoteAfter(x, quote)) case Some(i) => Some(|x| + i) case None => None
  {
    if x == "" {
      assert x + y == y;
    } else {
      assert (x + y)[1..] == x[1..] + y;
      FindConcat(x[1..], y, NextQuote(quote, x[0]));
    }
  }

  lemma {:induction false} QuoteConcat(x: string, y: string, quote: Option<char>)
    ensures QuoteAfter(x + y, quote) == QuoteAfter(y, QuoteAfter(x, quote))
  {
    if x == "" {
      assert x + y == y;
    } else {
      assert (x + y)[1..] == x[1..] + y;
      QuoteConcat(x[1..], y, NextQuote(quote, x[0]));
    }
  }

  /** The recursive search finds the first comment, so it agrees with the loop. */
  lemma {:induction false} FindIsFirst(s: string, quote: Option<char>)
    ensures FindFrom(s, quote).Some? ==> QuoteAfter(s[..FindFrom(s, quote).value], quote) == None
    ensures forall j :: 0 <= j < |s| && s[j] == '#' && QuoteAfter(s[..j], quote) == None ==>
              FindFrom(s, quote).Some? && FindFrom(s, quote).value <= j
  {
    if s != "" {
      FindIsFirst(s[1..], NextQuote(quote, s[0]));
      forall j | 0 < j <= |s| ensures QuoteAfter(s[..j], quote) == QuoteAfter(s[1..][..j - 1], NextQuote(quote, s[0])) {
        assert s[..j][1..] == s[1..][..j - 1];
      }
    }
  }

  lemma FindCommentIsFirst(s: string)
    ensures match FindComment(s)
            case Some(i) => CommentAt(s, i) && forall j :: 0 <= j < i ==> !CommentAt(s, j)
            case None => forall j :: 0 <= j < |s| ==> !CommentAt(s, j)
  {
    FindIsFirst(s, None);
  }

  // ---------------------------------------------------------------- lines

  predicate IsAscii(c: char) {
    c < '\U{0080}'
  }

  predicate AllAscii(s: string) {
    forall i {:trigger s[i]} :: 0 <= i < |s| ==> IsAscii(s[i])
  }

  function UpperChar(c: char): char {
    if 'a' <= c <= 'z' then c - 'a' + 'A' else c
  }

  function UpperAscii(s: string): string {
    if s == "" then "" else [UpperChar(s[0])] + UpperAscii(s[1..])
  }

  /** upper_ascii. */
  function Upper(s: string, fold: Fold): string {
    if s == "" then "" else UpperAscii(fold(s[0])) + Upper(s[1..], fold)
  }

  ghost predicate KeepsAscii(fold: Fold) {
    forall c {:trigger fold(c)} :: IsAscii(c) ==> fold(c) == [c]
  }

  ghost predicate GivesAscii(fold: Fold) {
    forall c {:trigger fold(c)} :: AllAscii(fold(c))
  }

  /** What any normalization does: it leaves ASCII characters as they are, and gives nothing else. */
  ghost predicate IsFold(fold: Fold) {
    KeepsAscii(fold) && GivesAscii(fold)
  }

  lemma UpperCons(c: char, rest: string, fold: Fold)
    requires fold(c) == [c] && UpperChar(c) == c
    ensures Upper([c] + rest, fold) == [c] + Upper(rest, fold)
  {
    assert ([c] + rest)[1..] == rest && [c][1..] == "";
    assert UpperAscii([c]) == [c];
  }

  lemma {:induction false} UpperOfUpperAscii(s: string, rest: string, fold: Fold)
    requires KeepsAscii(fold) && AllAscii(s)
    ensures Upper(UpperAscii(s) + rest, fold) == UpperAscii(s) + Upper(rest, fold)
    decreases |s|
  {
    if s == "" {
      assert "" + rest == rest && "" + Upper(rest, fold) == Upper(rest, fold);
    } else {
      assert IsAscii(s[0]);
      forall i {:trigger s[1..][i]} | 0 <= i < |s[1..]| ensures IsAscii(s[1..][i]) {
        assert s[1..][i] == s[i + 1];
      }
      var c, tail := UpperChar(s[0]), UpperAscii(s[1..]);
      UpperOfUpperAscii(s[1..], rest, fold);
      UpperCons(c, tail + rest, fold);
      assert UpperAscii(s) + rest == [c] + (tail + rest);
      assert [c] + (tail + Upper(rest, fold)) == UpperAscii(s) + Upper(rest, fold);
    }
  }

  /** Upper-casing a key twice changes nothing more. */
  lemma {:induction false} UpperTwice(s: string, fold: Fold)
    requires IsFold(fold)
    ensures Upper(Upper(s, fold), fold) == Upper(s, fold)
  {
    if s != "" {
      assert AllAscii(fold(s[0]));
      UpperOfUpperAscii(fold(s[0]), Upper(s[1..], fold), fold);
      UpperTwice(s[1..], fold);
    }
  }

  /** str.partition at the first '='. */
  function Partition(s: string): (string, bool, string) {
    if s == "" then ("", false, "")
    else if s[0] == '=' then ("", true, s[1..])
    else var (before, found, after) := Partition(s[1..]); ([s[0]] + before, found, after)
  }

  /** What a line says: a key with its value, or nothing; and its comment. */
  datatype Parsed = Other(comment: string) | Pair(key: string, value: string, comment: string)

  /** The line without its comment, and the comment. */
  function CutComment(line: string): (string, string) {
    var s := Strip(line);
    match FindComment(s)
    case Some(i) => (s[..i], s[i..])
    case None => (s, "")
  }

  /** _parseline; unquoting may fail. */
  function Parse(line: string, f: Flags): Result<Parsed, Shlex.Error> {
    var (body, comment) := CutComment(line);
    var (key, found, value) := Partition(body);
    match (if f.readUnquote then Shlex.Unquote(Strip(value)) else Ok(Strip(value)))
    case Err(e) => Err(e)
    case Ok(v) =>
      if Strip(key) != "" && found then Ok(Pair(Upper(Strip(key), f.fold), v, comment)) else Ok(Other(comment))
  }

  // ---------------------------------------------------------------- the keys and values

  /** A dictionary in insertion order. */
  datatype Dict = Dict(keys: seq<string>, values: map<string, string>)

  const EMPTY := Dict([], map[])

  ghost predicate Valid(d: Dict) {
    && (forall k :: k in d.values <==> k in d.keys)
    && (forall i, j :: 0 <= i < j < |d.keys| ==> d.keys[i] != d.keys[j])
  }

  function Put(d: Dict, key: string, value: string): Dict {
    Dict(if key in d.values then d.keys else d.keys + [key], d.values[key := value])
  }

  function Without(keys: seq<string>, key: string): seq<string> {
    if keys == [] then [] else (if keys[0] == key then [] else [keys[0]]) + Without(keys[1..], key)
  }

  function Delete(d: Dict, key: string): Dict {
    if key in d.values then Dict(Without(d.keys, key), d.values - {key}) else d
  }

  /** What a line that was read makes of the keys. */
  function Noted(d: Dict, parsed: Parsed): Dict {
    if parsed.Pair? && parsed.key != "" then Put(d, parsed.key, parsed.value) else d
  }

  /** Reading lines one after another. */
  function ReadLines(d: Dict, lines: seq<string>, f: Flags): Result<Dict, Shlex.Error>
    decreases lines
  {
    if lines == [] then Ok(d)
    else match Parse(lines[0], f)
         case Err(e) => Err(e)
         case Ok(parsed) => ReadLines(Noted(d, parsed), lines[1..], f)
  }

  function SetAll(d: Dict, pairs: seq<(string, string)>, fold: Fold): Dict
    decreases pairs
  {
    if pairs == [] then d else SetAll(Put(d, Upper(pairs[0].0, fold), pairs[0].1), pairs[1..], fold)
  }

  function UnsetAll(d: Dict, keys: seq<string>, fold: Fold): Dict
    decreases keys
  {
    if keys == [] then d else UnsetAll(Delete(d, Upper(keys[0], fold)), keys[1..], fold)
  }

  // ---------------------------------------------------------------- printing

  /** _kvpair. */
  function KeyRow(key: string, value: string, comment: string, f: Flags): string {
    key + ['='] + (if f.writeQuote || f.alwaysQuote then Shlex.Quote(value, f.alwaysQuote) else value) +
    (if comment != "" then [' '] + comment else "") + ['\n']
  }

  ghost predicate Readable(lines: seq<string>, f: Flags) {
    forall line :: line in lines ==> Parse(line, f).Ok?
  }

  /** What a line that was read becomes. */
  function Reprint(line: string, d: Dict, f: Flags): seq<string>
    requires Parse(line, f).Ok?
  {
    match Parse(line, f).value
    case Other(_) => [line]
    case Pair(key, _, comment) => if key in d.values then [KeyRow(key, d.values[key], comment, f)] else []
  }

  function OldRows(lines: seq<string>, d: Dict, f: Flags): seq<string>
    requires Readable(lines, f)
  {
    if lines == [] then [] else Reprint(lines[0], d, f) + OldRows(lines[1..], d, f)
  }

  function KeyOf(line: string, d: Dict, f: Flags): seq<string>
    requires Parse(line, f).Ok?
  {
    match Parse(line, f).value
    case Other(_) => []
    case Pair(key, _, _) => if key in d.values then [key] else []
  }

  /** The keys that have a line. */
  function OldKeys(lines: seq<string>, d: Dict, f: Flags): seq<string>
    requires Readable(lines, f)
  {
    if lines == [] then [] else KeyOf(lines[0], d, f) + OldKeys(lines[1..], d, f)
  }

  function NewRow(key: string, done: seq<string>, d: Dict, f: Flags): seq<string>
    requires key in d.values
  {
    if key in done then [] else [KeyRow(key, d.values[key], "", f)]
  }

  /** Rows for the keys that have none. */
  function NewRows(keys: seq<string>, done: seq<string>, d: Dict, f: Flags): seq<string>
    requires forall k :: k in keys ==> k in d.values
  {
    if keys == [] then [] else NewRow(keys[0], done, d, f) + NewRows(keys[1..], done, d, f)
  }

  function Rows(lines: seq<string>, d: Dict, f: Flags): seq<string>
    requires Readable(lines, f) && Valid(d)
  {
    OldRows(lines, d, f) + NewRows(d.keys, OldKeys(lines, d, f), d, f)
  }

  /** str of the file. */
  function Text(lines: seq<string>, d: Dict, f: Flags): string
    requires Readable(lines, f) && Valid(d)
  {
    Concat(Rows(lines, d, f))
  }

  // ---------------------------------------------------------------- reading back one printed row

  predicate IsNeutral(c: char) {
    !Shlex.IsQuote(c) && c != '#' && c != '='
  }

  predicate AllNeutral(s: string) {
    forall i {:trigger s[i]} :: 0 <= i < |s| ==> IsNeutral(s[i])
  }

  predicate IsKeyChar(c: char) {
    IsNeutral(c) && c != '\n' && c != '\r'
  }

  /** A key that takes its own place in a row: tight, and free of quotes, #, = and newlines. */
  predicate PlainKey(key: string) {
    key != "" && Tight(key) && forall i {:trigger key[i]} :: 0 <= i < |key| ==> IsKeyChar(key[i])
  }

  /** A key that is read as it is printed: besides, upper_ascii leaves it as it is. */
  predicate GoodKey(key: string, f: Flags) {
    PlainKey(key) && Upper(key, f.fold) == key
  }

  predicate GoodComment(comment: string) {
    Tight(comment) && (comment != "" ==> comment[0] == '#') && NoNewline(comment)
  }

  predicate Quotes(f: Flags) {
    f.readUnquote && (f.writeQuote || f.alwaysQuote)
  }

  function Printed(value: string, f: Flags): string {
    Shlex.Quote(value, f.alwaysQuote)
  }

  /** The printed value holds no comment, and closes its quotes if a comment follows. */
  predicate CommentFree(printed: string, comment: string) {
    FindComment(printed) == None && (comment != "" ==> QuoteAfter(printed, None) == None)
  }

  function Pad(comment: string): string {
    if comment != "" then [' '] else ""
  }

  lemma NeutralRest(s: string)
    requires s != "" && AllNeutral(s)
    ensures IsNeutral(s[0]) && AllNeutral(s[1..])
  {
    forall i {:trigger s[1..][i]} | 0 <= i < |s[1..]| ensures IsNeutral(s[1..][i]) {
      assert s[1..][i] == s[i + 1];
    }
  }

  lemma {:induction false} KeyIsCommentFree(key: string)
    requires AllNeutral(key)
    ensures FindFrom(key, None) == None && QuoteAfter(key, None) == None
  {
    if key != "" {
      NeutralRest(key);
      KeyIsCommentFree(key[1..]);
    }
  }

  lemma KeyIsNeutral(key: string)
    requires PlainKey(key)
    ensures AllNeutral(key)
  {
    forall i {:trigger key[i]} | 0 <= i < |key| ensures IsNeutral(key[i]) {
      assert IsKeyChar(key[i]);
    }
  }

  lemma QuoteTight(value: string, always: bool)
    ensures Tight(Shlex.Quote(value, always))
  {
    if !always && Shlex.AllSafe(value) && value != "" {
      assert Shlex.IsSafe(value[0]) && Shlex.IsSafe(value[|value| - 1]);
    }
  }

  /** A row that is printed without quoting. */
  lemma BareRow(key: string, value: string, comment: string, f: Flags)
    requires !f.writeQuote && !f.alwaysQuote
    ensures KeyRow(key, value, comment, f) == RowText(key, value, comment) + ['\n']
  {
  }

  /** The row without its newline. */
  function RowText(key: string, printed: string, comment: string): string {
    (key + ['=']) + (printed + (Pad(comment) + comment))
  }

  lemma RowIsText(key: string, value: string, comment: string, f: Flags)
    requires f.writeQuote || f.alwaysQuote
    ensures KeyRow(key, value, comment, f) == RowText(key, Printed(value, f), comment) + ['\n']
  {
  }

  lemma RowTight(key: string, printed: string, comment: string)
    requires PlainKey(key) && Tight(printed) && GoodComment(comment)
    ensures Tight(RowText(key, printed, comment))
  {
  }

  /** Where the comment of a row is found. */
  lemma FindInRow(key: string, rest: string)
    requires AllNeutral(key)
    ensures FindComment((key + ['=']) + rest) ==
            match FindFrom(rest, None)
            case Some(i) => Some(|key| + 1 + i)
            case None => None
  {
    var front := key + ['='];
    KeyIsCommentFree(key);
    FindConcat(key, ['='], None);
    QuoteConcat(key, ['='], None);
    assert ['='][1..] == "";
    assert FindFrom(['='], None) == None && QuoteAfter(['='], None) == None;
    FindConcat(front, rest, None);
  }

  lemma FindInTail(comment: string, quote: Option<char>)
    requires GoodComment(comment) && comment != ""
    ensures quote == None ==> FindFrom([' '] + comment, quote) == Some(1)
    ensures quote != None ==> FindFrom([' '] + comment, quote) == None || FindFrom([' '] + comment, quote).value > 1
  {
    assert ([' '] + comment)[1..] == comment;
  }

  /** The comment of a row is found where it was put exactly if the printed value is free of comments. */
  lemma FindAfterPrinted(printed: string, comment: string)
    requires GoodComment(comment)
    ensures CommentFree(printed, comment) <==>
            FindFrom(printed + (Pad(comment) + comment), None) == if comment == "" then None else Some(|printed| + 1)
  {
    FindConcat(printed, Pad(comment) + comment, None);
    if comment != "" {
      FindInTail(comment, QuoteAfter(printed, None));
    } else {
      assert Pad(comment) + comment == "";
    }
  }

  lemma CutRow(key: string, printed: string, comment: string)
    requires PlainKey(key) && Tight(printed) && GoodComment(comment)
    ensures CutComment(RowText(key, printed, comment) + ['\n']).1 == comment <==> CommentFree(printed, comment)
    ensures CommentFree(printed, comment) ==>
              CutComment(RowText(key, printed, comment) + ['\n']).0 == (key + ['=']) + (printed + Pad(comment))
  {
    var row := RowText(key, printed, comment);
    RowTight(key, printed, comment);
    StripOne(row, '\n');
    KeyIsNeutral(key);
    FindInRow(key, printed + (Pad(comment) + comment));
    FindAfterPrinted(printed, comment);
    var front := (key + ['=']) + (printed + Pad(comment));
    assert row == front + comment;
    if CommentFree(printed, comment) {
      if comment != "" {
        assert FindComment(row) == Some(|front|);
        assert row[..|front|] == front && row[|front|..] == comment;
      } else {
        assert row == front;
      }
    } else {
      CutElsewhere(row, front, comment);
    }
  }

  /** A comment found elsewhere is not the one that was put there. */
  lemma CutElsewhere(row: string, front: string, comment: string)
    requires Tight(row) && row == front + comment && FindComment(row) != if comment == "" then None else Some(|front|)
    ensures CutComment(row + ['\n']).1 != comment
  {
    StripOne(row, '\n');
  }

  lemma {:induction false} PartitionKey(key: string, rest: string)
    requires AllNeutral(key)
    ensures Partition((key + ['=']) + rest) == (key, true, rest)
  {
    var s := (key + ['=']) + rest;
    if key == "" {
      assert s[1..] == rest;
    } else {
      NeutralRest(key);
      PartitionKey(key[1..], rest);
      assert s[1..] == (key[1..] + ['=']) + rest;
      assert [key[0]] + key[1..] == key;
    }
  }

  lemma StripPrinted(printed: string, comment: string)
    requires Tight(printed)
    ensures Strip(printed + Pad(comment)) == printed
  {
    if comment != "" {
      StripOne(printed, ' ');
    } else {
      assert printed + Pad(comment) == printed;
      StripTight(printed);
    }
  }

  /** No # in the value stands where the quotes are closed, if the value is put in double quotes. */
  predicate HashesQuoted(value: string) {
    forall i {:trigger value[i]} :: 0 <= i < |value| && value[i] == '#' ==> QuoteAfter(value[..i], Some('"')) != None
  }

  /** Put in double quotes, the value leaves the closing quote to close. */
  predicate QuotesClosed(value: string) {
    QuoteAfter(value, Some('"')) == Some('"')
  }

  /** Backslashes before double quotes hide no comment and change no quote. */
  lemma {:induction false} EscapedSame(value: string, quote: Option<char>)
    ensures QuoteAfter(Shlex.EscapeQuotes(value), quote) == QuoteAfter(value, quote)
    ensures FindFrom(Shlex.EscapeQuotes(value), quote) == None <==> FindFrom(value, quote) == None
  {
    if value != "" {
      var rest := Shlex.EscapeQuotes(value[1..]);
      EscapedSame(value[1..], NextQuote(quote, value[0]));
      if value[0] == '"' {
        assert Shlex.EscapeQuotes(value) == ['\\'] + (['"'] + rest);
        assert (['\\'] + (['"'] + rest))[1..] == ['"'] + rest;
      }
    }
  }

  lemma NoHashFound(value: string)
    ensures FindFrom(value, Some('"')) == None <==> HashesQuoted(value)
  {
    FindIsFirst(value, Some('"'));
  }

  /** Whether a printed value shows a comment can be seen on the value. */
  lemma PrintedIsFree(value: string, f: Flags)
    ensures FindComment(Printed(value, f)) == None <==> HashesQuoted(value)
    ensures QuoteAfter(Printed(value, f), None) == None <==> QuotesClosed(value)
  {
    NoHashFound(value);
    if !f.alwaysQuote && Shlex.AllSafe(value) {
      SafeIsKey(value);
      SafeInQuotes(value);
    } else {
      var escaped := Shlex.EscapeQuotes(value);
      EscapedSame(value, Some('"'));
      assert (['"'] + (escaped + ['"']))[1..] == escaped + ['"'];
      FindConcat(escaped, ['"'], Some('"'));
      QuoteConcat(escaped, ['"'], Some('"'));
      assert ['"'][1..] == "";
    }
  }

  lemma {:induction false} SafeInQuotes(value: string)
    requires Shlex.AllSafe(value)
    ensures FindFrom(value, Some('"')) == None && QuoteAfter(value, Some('"')) == Some('"')
  {
    if value != "" {
      assert Shlex.IsSafe(value[0]);
      forall i {:trigger value[1..][i]} | 0 <= i < |value[1..]| ensures Shlex.IsSafe(value[1..][i]) {
        assert value[1..][i] == value[i + 1];
      }
      SafeInQuotes(value[1..]);
    }
  }

  /** A printed row is read back as the key, value and comment it was printed from exactly if its value is plain,
      holds no # outside quotes, and closes its quotes if a comment follows. */
  lemma RowRoundTrip(key: string, value: string, comment: string, f: Flags)
    requires Quotes(f) && GoodKey(key, f) && GoodComment(comment)
    ensures Parse(KeyRow(key, value, comment, f), f) == Ok(Pair(key, value, comment)) <==>
            Shlex.Plain(value) && HashesQuoted(value) && (comment != "" ==> QuotesClosed(value))
  {
    PrintedIsFree(value, f);
    var printed := Printed(value, f);
    QuoteTight(value, f.alwaysQuote);
    RowIsText(key, value, comment, f);
    CutRow(key, printed, comment);
    if CommentFree(printed, comment) {
      KeyIsNeutral(key);
      PartitionKey(key, printed + Pad(comment));
      StripPrinted(printed, comment);
      StripTight(key);
      Shlex.UnquoteQuote(value, f.alwaysQuote);
    }
  }

  // ---------------------------------------------------------------- reading lines with whitespace in them

  /** The parts of a line written by hand: any whitespace goes before and after each of the others. */
  datatype Spaced = Spaced(before: string, key: string, afterKey: string, beforeValue: string, printed: string,
    afterValue: string, comment: string, end: string)

  function KeyPart(l: Spaced): string {
    l.key + l.afterKey
  }

  function ValuePart(l: Spaced): string {
    if l.comment == "" then l.beforeValue + l.printed else l.beforeValue + (l.printed + l.afterValue)
  }

  function Inner(l: Spaced): string {
    (KeyPart(l) + ['=']) + (ValuePart(l) + l.comment)
  }

  function SpacedLine(l: Spaced): string {
    l.before + (Inner(l) + l.end)
  }

  predicate Whitespaced(l: Spaced) {
    AllSpace(l.before) && AllSpace(l.afterKey) && AllSpace(l.beforeValue) && AllSpace(l.afterValue) && AllSpace(l.end)
  }

  ghost predicate Sound(l: Spaced) {
    && Whitespaced(l)
    && l.key != "" && Tight(l.key) && AllNeutral(l.key)
    && l.printed != "" && Tight(l.printed) && CommentFree(l.printed, l.comment)
    && Tight(l.comment) && (l.comment != "" ==> l.comment[0] == '#')
  }

  lemma SpaceIsNeutral(s: string)
    requires AllSpace(s)
    ensures AllNeutral(s)
  {
    forall i {:trigger s[i]} | 0 <= i < |s| ensures IsNeutral(s[i]) {
      assert IsSpace(s[i]);
    }
  }

  lemma NeutralConcat(x: string, y: string)
    requires AllNeutral(x) && AllNeutral(y)
    ensures AllNeutral(x + y)
  {
  }

  lemma InnerTight(l: Spaced)
    requires Sound(l)
    ensures Tight(Inner(l))
  {
    var s := Inner(l);
    assert s[0] == l.key[0];
    assert s[|s| - 1] == if l.comment != "" then l.comment[|l.comment| - 1] else l.printed[|l.printed| - 1];
  }

  /** Where the comment is in what follows the equals sign. */
  lemma FindInValue(l: Spaced)
    requires Sound(l)
    ensures FindFrom(ValuePart(l) + l.comment, None) == if l.comment == "" then None else Some(|ValuePart(l)|)
  {
    SpaceIsNeutral(l.beforeValue);
    KeyIsCommentFree(l.beforeValue);
    var rest := if l.comment == "" then l.printed else l.printed + (l.afterValue + l.comment);
    assert ValuePart(l) + l.comment == l.beforeValue + rest;
    FindConcat(l.beforeValue, rest, None);
    if l.comment != "" {
      FindConcat(l.printed, l.afterValue + l.comment, None);
      SpaceIsNeutral(l.afterValue);
      KeyIsCommentFree(l.afterValue);
      FindConcat(l.afterValue, l.comment, None);
    }
  }

  lemma CutSpaced(l: Spaced)
    requires Sound(l)
    ensures CutComment(SpacedLine(l)) == ((KeyPart(l) + ['=']) + ValuePart(l), l.comment)
  {
    InnerTight(l);
    StripAround(l.before, Inner(l), l.end);
    SpaceIsNeutral(l.afterKey);
    NeutralConcat(l.key, l.afterKey);
    FindInRow(KeyPart(l), ValuePart(l) + l.comment);
    FindInValue(l);
    var front := (KeyPart(l) + ['=']) + ValuePart(l);
    assert Inner(l) == front + l.comment;
    if l.comment != "" {
      assert Inner(l)[..|front|] == front && Inner(l)[|front|..] == l.comment;
    } else {
      assert Inner(l) == front;
    }
  }

  lemma StripParts(l: Spaced)
    requires Sound(l)
    ensures Strip(KeyPart(l)) == l.key && Strip(ValuePart(l)) == l.printed
  {
    StripAround("", l.key, l.afterKey);
    assert "" + KeyPart(l) == KeyPart(l);
    var after := if l.comment == "" then "" else l.afterValue;
    StripAround(l.beforeValue, l.printed, after);
    assert l.printed + "" == l.printed;
  }

  /** Whatever whitespace is around its parts, a line is read as its upper-case key, its value, unquoted if that is
      asked for, and its comment. */
  lemma SpacedLineRead(l: Spaced, f: Flags)
    requires Sound(l)
    ensures Parse(SpacedLine(l), f) ==
            match if f.readUnquote then Shlex.Unquote(l.printed) else Ok(l.printed)
            case Ok(value) => Ok(Pair(Upper(l.key, f.fold), value, l.comment))
            case Err(e) => Err(e)
  {
    CutSpaced(l);
    SpaceIsNeutral(l.afterKey);
    NeutralConcat(l.key, l.afterKey);
    PartitionKey(KeyPart(l), ValuePart(l));
    StripParts(l);
  }

  /** A value without double quotes holds no comment outside quotes. */
  lemma NoDoubleQuotes(value: string, f: Flags)
    requires forall i {:trigger value[i]} :: 0 <= i < |value| ==> value[i] != '"'
    ensures HashesQuoted(value) && QuotesClosed(value)
    ensures FindComment(Printed(value, f)) == None && QuoteAfter(Printed(value, f), None) == None
  {
    PrintedIsFree(value, f);
    NoHashFound(value);
    InnerQuoted(value);
  }

  lemma {:induction false} SafeIsKey(value: string)
    requires Shlex.AllSafe(value)
    ensures FindFrom(value, None) == None && QuoteAfter(value, None) == None
  {
    if value != "" {
      assert Shlex.IsSafe(value[0]);
      forall i {:trigger value[1..][i]} | 0 <= i < |value[1..]| ensures Shlex.IsSafe(value[1..][i]) {
        assert value[1..][i] == value[i + 1];
      }
      SafeIsKey(value[1..]);
    }
  }

  lemma {:induction false} InnerQuoted(value: string)
    requires forall i {:trigger value[i]} :: 0 <= i < |value| ==> value[i] != '"'
    ensures FindFrom(value, Some('"')) == None && QuoteAfter(value, Some('"')) == Some('"')
  {
    if value != "" {
      assert value[0] != '"';
      forall i {:trigger value[1..][i]} | 0 <= i < |value[1..]| ensures value[1..][i] != '"' {
        assert value[1..][i] == value[i + 1];
      }
      InnerQuoted(value[1..]);
    }
  }

  // ---------------------------------------------------------------- reading back a whole printed file

  /** A value that is printed on one row and read back from it. */
  predicate GoodValue(value: string) {
    NoNewline(value) && Shlex.Plain(value) && HashesQuoted(value) && QuotesClosed(value)
  }

  predicate GoodEntry(key: string, value: string, f: Flags) {
    GoodKey(key, f) && GoodValue(value)
  }

  ghost predicate GoodDict(d: Dict, f: Flags) {
    Valid(d) && forall k {:trigger k in d.values} :: k in d.values ==> GoodEntry(k, d.values[k], f)
  }

  /** Keys that come out of upper_ascii need not be asked for more than to be plain. */
  predicate PlainEntry(key: string, value: string) {
    PlainKey(key) && GoodValue(value)
  }

  lemma UpperIsGood(s: string, value: string, f: Flags)
    requires IsFold(f.fold) && PlainEntry(Upper(s, f.fold), value)
    ensures GoodEntry(Upper(s, f.fold), value, f)
  {
    UpperTwice(s, f.fold);
  }

  lemma ParsedIsGood(line: string, f: Flags)
    requires IsFold(f.fold) && Parse(line, f).Ok? && Parse(line, f).value.Pair?
    requires PlainEntry(Parse(line, f).value.key, Parse(line, f).value.value)
    ensures GoodEntry(Parse(line, f).value.key, Parse(line, f).value.value, f)
  {
    var (key, _, _) := Partition(CutComment(line).0);
    UpperTwice(Strip(key), f.fold);
  }

  lemma StrippedLine(line: string)
    requires FileLine(line)
    ensures NoNewline(Strip(line)) && Tight(Strip(line))
  {
    var from, to := StripShape(line);
    var s := Strip(line);
    var front := line[..|line| - 1];
    assert s != "" ==> s[|s| - 1] == line[to - 1];
    forall i {:trigger s[i]} | 0 <= i < |s| ensures s[i] != '\n' && s[i] != '\r' {
      if from + i < |front| {
        assert front[from + i] == s[i];
      } else {
        assert s[i] == line[|line| - 1] == s[|s| - 1];
      }
    }
  }

  lemma ParsedComment(line: string, f: Flags)
    requires FileLine(line) && Parse(line, f).Ok?
    ensures GoodComment(Parse(line, f).value.comment)
  {
    StrippedLine(line);
    var s := Strip(line);
    if FindComment(s).Some? {
      var i := FindComment(s).value;
      var comment := s[i..];
      assert comment[0] == s[i] && comment[|comment| - 1] == s[|s| - 1];
      forall j {:trigger comment[j]} | 0 <= j < |comment| ensures comment[j] != '\n' && comment[j] != '\r' {
        assert comment[j] == s[i + j];
      }
    }
  }

  lemma {:induction false} EscapedNoNewline(value: string)
    requires NoNewline(value)
    ensures NoNewline(Shlex.EscapeQuotes(value))
  {
    if value != "" {
      forall i {:trigger value[1..][i]} | 0 <= i < |value[1..]| ensures value[1..][i] != '\n' && value[1..][i] != '\r' {
        assert value[1..][i] == value[i + 1];
      }
      EscapedNoNewline(value[1..]);
      assert value[0] != '\n' && value[0] != '\r';
      NoNewlineConcat(if value[0] == '"' then ['\\', '"'] else [value[0]], Shlex.EscapeQuotes(value[1..]));
    }
  }

  lemma PrintedNoNewline(value: string, f: Flags)
    requires NoNewline(value)
    ensures NoNewline(Printed(value, f))
  {
    EscapedNoNewline(value);
    NoNewlineConcat(Shlex.EscapeQuotes(value), ['"']);
    NoNewlineConcat(['"'], Shlex.EscapeQuotes(value) + ['"']);
  }

  lemma KeyNoNewline(key: string)
    requires PlainKey(key)
    ensures NoNewline(key)
  {
    forall i {:trigger key[i]} | 0 <= i < |key| ensures key[i] != '\n' && key[i] != '\r' {
      assert IsKeyChar(key[i]);
    }
  }

  /** A printed row is a line, read back as what it was printed from. */
  lemma RowIsGood(key: string, value: string, comment: string, f: Flags)
    requires Quotes(f) && GoodEntry(key, value, f) && GoodComment(comment)
    ensures GoodLine(KeyRow(key, value, comment, f))
    ensures Parse(KeyRow(key, value, comment, f), f) == Ok(Pair(key, value, comment))
  {
    RowRoundTrip(key, value, comment, f);
    RowIsText(key, value, comment, f);
    var row := RowText(key, Printed(value, f), comment);
    KeyNoNewline(key);
    NoNewlineConcat(key, ['=']);
    PrintedNoNewline(value, f);
    NoNewlineConcat(Pad(comment), comment);
    NoNewlineConcat(Printed(value, f), Pad(comment) + comment);
    NoNewlineConcat(key + ['='], Printed(value, f) + (Pad(comment) + comment));
    assert (row + ['\n'])[..|row|] == row;
  }

  /** What a line is, apart from the value: a line that is kept as it is, or a key with a comment. */
  datatype Mark = Kept(line: string) | Key(key: string, comment: string)

  function MarkOf(line: string, f: Flags): Mark
    requires Parse(line, f).Ok?
  {
    match Parse(line, f).value
    case Other(_) => Kept(line)
    case Pair(key, _, comment) => Key(key, comment)
  }

  predicate Survives(m: Mark, d: Dict) {
    m.Key? ==> m.key in d.values
  }

  function MarkIf(line: string, d: Dict, f: Flags): seq<Mark>
    requires Parse(line, f).Ok?
  {
    if Survives(MarkOf(line, f), d) then [MarkOf(line, f)] else []
  }

  /** The marks of the lines that are not deleted, in order. */
  function Surviving(lines: seq<string>, d: Dict, f: Flags): seq<Mark>
    requires Readable(lines, f)
  {
    if lines == [] then [] else MarkIf(lines[0], d, f) + Surviving(lines[1..], d, f)
  }

  /** The keys among them that are not done yet, without comments. */
  function NewMarks(keys: seq<string>, done: seq<string>): seq<Mark> {
    if keys == [] then [] else (if keys[0] in done then [] else [Key(keys[0], "")]) + NewMarks(keys[1..], done)
  }

  /** Lines of a file, each of which can be read. */
  ghost predicate GoodSources(lines: seq<string>, f: Flags) {
    Readable(lines, f) && forall line {:trigger FileLine(line)} :: line in lines ==> FileLine(line)
  }

  /** A row that printing again does not change. */
  ghost predicate Settled(row: string, d: Dict, f: Flags) {
    && Parse(row, f).Ok?
    && match Parse(row, f).value
       case Other(_) => true
       case Pair(key, value, comment) =>
         key != "" && key in d.values && value == d.values[key] && row == KeyRow(key, value, comment, f)
  }

  ghost predicate AllSettled(rows: seq<string>, d: Dict, f: Flags) {
    forall row {:trigger row in rows} :: row in rows ==> Settled(row, d, f)
  }

  lemma PrintedRowSettled(key: string, comment: string, d: Dict, f: Flags)
    requires Quotes(f) && GoodDict(d, f) && key in d.values && GoodComment(comment)
    ensures var row := KeyRow(key, d.values[key], comment, f);
            Settled(row, d, f) && GoodLine(row) && MarkOf(row, f) == Key(key, comment)
  {
    RowIsGood(key, d.values[key], comment, f);
  }

  lemma OneMark(line: string, d: Dict, f: Flags)
    requires Parse(line, f).Ok?
    ensures Surviving([line], d, f) == MarkIf(line, d, f)
    ensures OldKeys([line], d, f) == KeyOf(line, d, f)
  {
    assert [line][1..] == [];
  }

  lemma ReprintSettled(line: string, d: Dict, f: Flags)
    requires Quotes(f) && GoodDict(d, f) && FileLine(line) && Parse(line, f).Ok?
    ensures AllSettled(Reprint(line, d, f), d, f)
    ensures Surviving(Reprint(line, d, f), d, f) == MarkIf(line, d, f)
    ensures OldKeys(Reprint(line, d, f), d, f) == KeyOf(line, d, f)
  {
    match Parse(line, f).value
    case Other(_) => OneMark(line, d, f);
    case Pair(key, _, comment) =>
      if key in d.values {
        ParsedComment(line, f);
        PrintedRowSettled(key, comment, d, f);
        OneMark(KeyRow(key, d.values[key], comment, f), d, f);
      }
  }

  lemma Assoc<T>(a: seq<T>, b: seq<T>, c: seq<T>)
    ensures (a + b) + c == a + (b + c)
  {
  }

  /** One line before others. */
  lemma FirstLine(line: string, rest: seq<string>, d: Dict, f: Flags)
    requires Parse(line, f).Ok? && Readable(rest, f)
    ensures Readable([line] + rest, f)
    ensures Surviving([line] + rest, d, f) == MarkIf(line, d, f) + Surviving(rest, d, f)
    ensures OldKeys([line] + rest, d, f) == KeyOf(line, d, f) + OldKeys(rest, d, f)
    ensures OldRows([line] + rest, d, f) == Reprint(line, d, f) + OldRows(rest, d, f)
  {
    assert ([line] + rest)[1..] == rest;
  }

  lemma SplitFirst(x: seq<string>, y: seq<string>)
    requires x != []
    ensures x == [x[0]] + x[1..] && x + y == [x[0]] + (x[1..] + y)
  {
  }

  lemma BothReadable(x: seq<string>, y: seq<string>, f: Flags)
    requires Readable(x, f) && Readable(y, f)
    ensures Readable(x + y, f)
  {
  }

  lemma {:induction false} SurvivingConcat(x: seq<string>, y: seq<string>, d: Dict, f: Flags)
    requires Readable(x, f) && Readable(y, f) && Readable(x + y, f)
    ensures Surviving(x + y, d, f) == Surviving(x, d, f) + Surviving(y, d, f)
  {
    if x == [] {
      assert x + y == y;
    } else {
      var rest := x[1..];
      RestIn(x);
      BothReadable(rest, y, f);
      SurvivingConcat(rest, y, d, f);
      FirstLine(x[0], rest + y, d, f);
      FirstLine(x[0], rest, d, f);
      SplitFirst(x, y);
      Assoc(MarkIf(x[0], d, f), Surviving(rest, d, f), Surviving(y, d, f));
    }
  }

  lemma {:induction false} OldKeysConcat(x: seq<string>, y: seq<string>, d: Dict, f: Flags)
    requires Readable(x, f) && Readable(y, f) && Readable(x + y, f)
    ensures OldKeys(x + y, d, f) == OldKeys(x, d, f) + OldKeys(y, d, f)
  {
    if x == [] {
      assert x + y == y;
    } else {
      var rest := x[1..];
      RestIn(x);
      BothReadable(rest, y, f);
      OldKeysConcat(rest, y, d, f);
      FirstLine(x[0], rest + y, d, f);
      FirstLine(x[0], rest, d, f);
      SplitFirst(x, y);
      Assoc(KeyOf(x[0], d, f), OldKeys(rest, d, f), OldKeys(y, d, f));
    }
  }

  lemma {:induction false} OldRowsConcat(x: seq<string>, y: seq<string>, d: Dict, f: Flags)
    requires Readable(x, f) && Readable(y, f) && Readable(x + y, f)
    ensures OldRows(x + y, d, f) == OldRows(x, d, f) + OldRows(y, d, f)
  {
    if x == [] {
      assert x + y == y;
    } else {
      var rest := x[1..];
      RestIn(x);
      BothReadable(rest, y, f);
      OldRowsConcat(rest, y, d, f);
      FirstLine(x[0], rest + y, d, f);
      FirstLine(x[0], rest, d, f);
      SplitFirst(x, y);
      Assoc(Reprint(x[0], d, f), OldRows(rest, d, f), OldRows(y, d, f));
    }
  }

  /** Lines one after another: what is kept of them, and their keys. */
  lemma LinesConcat(x: seq<string>, y: seq<string>, d: Dict, f: Flags)
    requires Readable(x, f) && Readable(y, f)
    ensures Readable(x + y, f)
    ensures Surviving(x + y, d, f) == Surviving(x, d, f) + Surviving(y, d, f)
    ensures OldKeys(x + y, d, f) == OldKeys(x, d, f) + OldKeys(y, d, f)
    ensures OldRows(x + y, d, f) == OldRows(x, d, f) + OldRows(y, d, f)
  {
    BothReadable(x, y, f);
    SurvivingConcat(x, y, d, f);
    OldKeysConcat(x, y, d, f);
    OldRowsConcat(x, y, d, f);
  }

  lemma {:induction false} OldRowsSettled(lines: seq<string>, d: Dict, f: Flags)
    requires Quotes(f) && GoodDict(d, f) && GoodSources(lines, f)
    ensures AllSettled(OldRows(lines, d, f), d, f)
    ensures Surviving(OldRows(lines, d, f), d, f) == Surviving(lines, d, f)
    ensures OldKeys(OldRows(lines, d, f), d, f) == OldKeys(lines, d, f)
  {
    if lines != [] {
      RestIn(lines);
      ReprintSettled(lines[0], d, f);
      OldRowsSettled(lines[1..], d, f);
      LinesConcat(Reprint(lines[0], d, f), OldRows(lines[1..], d, f), d, f);
    }
  }

  function NewKeys(keys: seq<string>, done: seq<string>): seq<string> {
    if keys == [] then [] else (if keys[0] in done then [] else [keys[0]]) + NewKeys(keys[1..], done)
  }

  lemma NewRowSettled(key: string, d: Dict, f: Flags)
    requires Quotes(f) && GoodDict(d, f) && key in d.values
    ensures var rows := [KeyRow(key, d.values[key], "", f)];
            AllSettled(rows, d, f) && Surviving(rows, d, f) == [Key(key, "")] && OldKeys(rows, d, f) == [key]
  {
    PrintedRowSettled(key, "", d, f);
    OneMark(KeyRow(key, d.values[key], "", f), d, f);
  }

  lemma {:induction false} NewRowsSettled(keys: seq<string>, done: seq<string>, d: Dict, f: Flags)
    requires Quotes(f) && GoodDict(d, f) && forall k :: k in keys ==> k in d.values
    ensures AllSettled(NewRows(keys, done, d, f), d, f)
  {
    if keys != [] {
      NewRowsSettled(keys[1..], done, d, f);
      if keys[0] !in done {
        NewRowSettled(keys[0], d, f);
      }
    }
  }

  lemma {:induction false} NewRowsMarks(keys: seq<string>, done: seq<string>, d: Dict, f: Flags)
    requires Quotes(f) && GoodDict(d, f) && forall k :: k in keys ==> k in d.values
    requires Readable(NewRows(keys, done, d, f), f)
    ensures Surviving(NewRows(keys, done, d, f), d, f) == NewMarks(keys, done)
    ensures OldKeys(NewRows(keys, done, d, f), d, f) == NewKeys(keys, done)
  {
    if keys != [] {
      var rest := NewRows(keys[1..], done, d, f);
      if keys[0] in done {
        assert NewRows(keys, done, d, f) == rest;
        NewRowsMarks(keys[1..], done, d, f);
      } else {
        var row := [KeyRow(keys[0], d.values[keys[0]], "", f)];
        assert NewRows(keys, done, d, f) == row + rest;
        NewRowSettled(keys[0], d, f);
        RestReadable(row, rest, f);
        NewRowsMarks(keys[1..], done, d, f);
        LinesConcat(row, rest, d, f);
      }
    }
  }

  lemma RestReadable(x: seq<string>, y: seq<string>, f: Flags)
    requires Readable(x + y, f)
    ensures Readable(y, f)
  {
    forall line | line in y ensures Parse(line, f).Ok? {
      assert line in x + y;
    }
  }

  lemma {:induction false} EveryKeyHasARow(keys: seq<string>, done: seq<string>)
    ensures forall k :: k in keys ==> k in done || k in NewKeys(keys, done)
  {
    if keys != [] {
      EveryKeyHasARow(keys[1..], done);
    }
  }

  /** The printed rows: settled, keeping the surviving lines, and with a row for every key. */
  lemma RowsSettled(lines: seq<string>, d: Dict, f: Flags)
    requires Quotes(f) && GoodDict(d, f) && GoodSources(lines, f)
    ensures AllSettled(Rows(lines, d, f), d, f)
    ensures Surviving(Rows(lines, d, f), d, f) == Surviving(lines, d, f) + NewMarks(d.keys, OldKeys(lines, d, f))
    ensures forall k :: k in d.values ==> k in OldKeys(Rows(lines, d, f), d, f)
  {
    var done := OldKeys(lines, d, f);
    OldRowsSettled(lines, d, f);
    NewRowsSettled(d.keys, done, d, f);
    NewRowsMarks(d.keys, done, d, f);
    LinesConcat(OldRows(lines, d, f), NewRows(d.keys, done, d, f), d, f);
    EveryKeyHasARow(d.keys, done);
  }

  /** Every entry of e is one of d. */
  ghost predicate Agrees(e: Dict, d: Dict) {
    Valid(e) && forall k {:trigger k in e.values} :: k in e.values ==> k in d.values && e.values[k] == d.values[k]
  }

  lemma PutValid(d: Dict, key: string, value: string)
    requires Valid(d)
    ensures Valid(Put(d, key, value))
  {
  }

  lemma {:induction false} ReadSettled(e: Dict, rows: seq<string>, d: Dict, f: Flags)
    requires AllSettled(rows, d, f) && Agrees(e, d)
    ensures ReadLines(e, rows, f).Ok? && Agrees(ReadLines(e, rows, f).value, d)
    ensures forall k :: k in ReadLines(e, rows, f).value.values <==> k in e.values || k in OldKeys(rows, d, f)
    decreases rows
  {
    if rows != [] {
      RestIn(rows);
      assert Settled(rows[0], d, f);
      match Parse(rows[0], f).value
      case Other(_) => ReadSettled(e, rows[1..], d, f);
      case Pair(key, value, _) =>
        PutValid(e, key, value);
        ReadSettled(Put(e, key, value), rows[1..], d, f);
    }
  }

  lemma {:induction false} OldRowsOfSettled(rows: seq<string>, d: Dict, e: Dict, f: Flags)
    requires AllSettled(rows, d, f) && e.values == d.values
    ensures OldRows(rows, e, f) == rows && OldKeys(rows, e, f) == OldKeys(rows, d, f)
  {
    if rows != [] {
      RestIn(rows);
      assert Settled(rows[0], d, f);
      OldRowsOfSettled(rows[1..], d, e, f);
      assert [rows[0]] + rows[1..] == rows;
    }
  }

  lemma {:induction false} NoNewRows(keys: seq<string>, done: seq<string>, d: Dict, f: Flags)
    requires forall k :: k in keys ==> k in d.values && k in done
    ensures NewRows(keys, done, d, f) == []
  {
    if keys != [] {
      NoNewRows(keys[1..], done, d, f);
    }
  }

  /** Settled rows with a row for every key are read as they were printed. */
  lemma SettledRowsRead(rows: seq<string>, d: Dict, f: Flags)
    requires AllSettled(rows, d, f) && forall k :: k in d.values ==> k in OldKeys(rows, d, f)
    ensures var read := ReadLines(EMPTY, rows, f); read.Ok? && Valid(read.value) && read.value.values == d.values
  {
    ReadSettled(EMPTY, rows, d, f);
    AgreesOnAll(ReadLines(EMPTY, rows, f).value, d, OldKeys(rows, d, f));
  }

  lemma AgreesOnAll(e: Dict, d: Dict, keys: seq<string>)
    requires Agrees(e, d) && forall k :: k in d.values ==> k in keys
    requires forall k :: k in e.values <==> k in EMPTY.values || k in keys
    ensures e.values == d.values
  {
  }

  lemma SettledRowsPrint(rows: seq<string>, d: Dict, e: Dict, f: Flags)
    requires AllSettled(rows, d, f) && Valid(e) && e.values == d.values
    requires forall k :: k in d.values ==> k in OldKeys(rows, d, f)
    ensures Rows(rows, e, f) == rows
  {
    OldRowsOfSettled(rows, d, e, f);
    NoNewRows(e.keys, OldKeys(rows, e, f), e, f);
  }

  lemma SettledReadable(rows: seq<string>, d: Dict, f: Flags)
    requires AllSettled(rows, d, f)
    ensures Readable(rows, f)
  {
    forall row | row in rows ensures Parse(row, f).Ok? {
      assert Settled(row, d, f);
    }
  }

  /** Reading the printed rows gives the same keys and values, and printing them again the same rows; the lines
      that are no key lines stay as they are and where they are, and key lines keep their comments. */
  lemma RowsRoundTrip(lines: seq<string>, d: Dict, f: Flags)
    requires Quotes(f) && GoodDict(d, f) && GoodSources(lines, f)
    ensures var rows := Rows(lines, d, f);
            var read := ReadLines(EMPTY, rows, f);
            && Readable(rows, f)
            && read.Ok? && Valid(read.value) && read.value.values == d.values
            && Rows(rows, read.value, f) == rows
            && Surviving(rows, d, f) == Surviving(lines, d, f) + NewMarks(d.keys, OldKeys(lines, d, f))
  {
    var rows := Rows(lines, d, f);
    RowsSettled(lines, d, f);
    SettledReadable(rows, d, f);
    SettledRowsRead(rows, d, f);
    SettledRowsPrint(rows, d, ReadLines(EMPTY, rows, f).value, f);
  }
}
