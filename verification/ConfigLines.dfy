/** Lines of configuration files as people write them: which # begins a comment, and how values in quotes are read. */
module ConfigLines {
  import opened Prelude
  import opened Whitespace
  import opened TextFiles
  import opened SimpleConfig
  import opened ShellWords
  import Shlex
  import Text

  // ---------------------------------------------------------------- comments

  /** A stretch of text: one without quotes, or one in quotes of one kind. */
  datatype Stretch = Open(s: string) | Closed(q: char, s: string)

  predicate Without(s: string, c: char) {
    forall i {:trigger s[i]} :: 0 <= i < |s| ==> s[i] != c
  }

  predicate SoundStretch(x: Stretch) {
    match x
    case Open(s) => Without(s, '"') && Without(s, '\'')
    case Closed(q, s) => (q == '"' || q == '\'') && Without(s, q)
  }

  predicate SoundStretches(xs: seq<Stretch>) {
    xs == [] || (SoundStretch(xs[0]) && SoundStretches(xs[1..]))
  }

  function StretchText(x: Stretch): string {
    match x
    case Open(s) => s
    case Closed(q, s) => [q] + (s + [q])
  }

  function StretchesText(xs: seq<Stretch>): string {
    if xs == [] then "" else StretchText(xs[0]) + StretchesText(xs[1..])
  }

  /** Where a character comes first. */
  function IndexOf(s: string, c: char): Option<nat> {
    if s == "" then None
    else if s[0] == c then Some(0)
    else match IndexOf(s[1..], c) case Some(i) => Some(i + 1) case None => None
  }

  /** Where something is found in a text of length n, or else in what follows it. */
  function Either(first: Option<nat>, n: nat, rest: Option<nat>): Option<nat> {
    if first.Some? then first else if rest.Some? then Some(n + rest.value) else None
  }

  function HashOf(x: Stretch): Option<nat> {
    if x.Open? then IndexOf(x.s, '#') else None
  }

  /** Where the first # is that is in no quotes. */
  function FirstHash(xs: seq<Stretch>): Option<nat> {
    if xs == [] then None else Either(HashOf(xs[0]), |StretchText(xs[0])|, FirstHash(xs[1..]))
  }

  lemma {:induction false} OpenHash(s: string)
    requires SoundStretch(Open(s))
    ensures FindFrom(s, None) == IndexOf(s, '#') && QuoteAfter(s, None) == None
  {
    if s != "" {
      assert s[0] != '"' && s[0] != '\'';
      forall i {:trigger s[1..][i]} | 0 <= i < |s[1..]| ensures s[1..][i] != '"' && s[1..][i] != '\'' {
        assert s[1..][i] == s[i + 1];
      }
      OpenHash(s[1..]);
    }
  }

  lemma {:induction false} QuotedHash(s: string, q: char)
    requires (q == '"' || q == '\'') && Without(s, q)
    ensures FindFrom(s, Some(q)) == None && QuoteAfter(s, Some(q)) == Some(q)
  {
    if s != "" {
      assert s[0] != q;
      forall i {:trigger s[1..][i]} | 0 <= i < |s[1..]| ensures s[1..][i] != q {
        assert s[1..][i] == s[i + 1];
      }
      QuotedHash(s[1..], q);
    }
  }

  lemma StretchHash(x: Stretch)
    requires SoundStretch(x)
    ensures FindFrom(StretchText(x), None) == HashOf(x)
    ensures QuoteAfter(StretchText(x), None) == None
  {
    match x
    case Open(s) => OpenHash(s);
    case Closed(q, s) =>
      QuotedHash(s, q);
      FindConcat(s, [q], Some(q));
      QuoteConcat(s, [q], Some(q));
      assert [q][1..] == "";
      assert ([q] + (s + [q]))[1..] == s + [q];
  }

  lemma FirstStretch(x: Stretch, rest: string)
    requires SoundStretch(x)
    ensures FindFrom(StretchText(x) + rest, None) == Either(HashOf(x), |StretchText(x)|, FindFrom(rest, None))
    ensures QuoteAfter(StretchText(x) + rest, None) == QuoteAfter(rest, None)
  {
    var text := StretchText(x);
    StretchHash(x);
    FindConcat(text, rest, None);
    QuoteConcat(text, rest, None);
  }

  lemma {:induction false} StretchesHash(xs: seq<Stretch>)
    requires SoundStretches(xs)
    ensures FindFrom(StretchesText(xs), None) == FirstHash(xs)
    ensures QuoteAfter(StretchesText(xs), None) == None
  {
    if xs != [] {
      var text, rest := StretchesText(xs), StretchesText(xs[1..]);
      StretchesHash(xs[1..]);
      FirstStretch(xs[0], rest);
      assert text == StretchText(xs[0]) + rest;
    }
  }

  /** The comment begins at the first # that is in no quotes, of either kind; a quote of the other kind is an ordinary
      character in quotes; and nothing after an open quote begins a comment. */
  lemma CommentIsFirstOpenHash(xs: seq<Stretch>, q: char, s: string)
    requires SoundStretches(xs) && (q == '"' || q == '\'') && Without(s, q)
    ensures FindComment(StretchesText(xs)) == FirstHash(xs)
    ensures FindComment(StretchesText(xs) + ([q] + s)) == FirstHash(xs)
  {
    StretchesHash(xs);
    QuotedHash(s, q);
    FindConcat(StretchesText(xs), [q] + s, None);
    assert ([q] + s)[1..] == s;
  }

  // ---------------------------------------------------------------- values

  /** Whatever way a value is quoted, a line is read as its upper-case key, the words of the value, and the comment. */
  lemma LineOfWords(l: Spaced, ws: seq<GapWord>, f: Flags)
    requires Sound(l) && f.readUnquote && SoundWords(ws) && l.printed == WordsText(ws, "")
    ensures Parse(SpacedLine(l), f) == Ok(Pair(Upper(l.key, f.fold), Spread(WordValues(ws)), l.comment))
  {
    SpacedLineRead(l, f);
    UnquoteWords(ws, "");
  }

  /** A value in single quotes is read as it stands between them, # and double quotes and backslashes included. */
  lemma SingleQuotedLine(l: Spaced, s: string, f: Flags)
    requires Whitespaced(l) && l.key != "" && Tight(l.key) && AllNeutral(l.key) && f.readUnquote
    requires Without(s, '\'') && l.printed == ['\''] + (s + ['\''])
    requires Tight(l.comment) && (l.comment != "" ==> l.comment[0] == '#')
    ensures Parse(SpacedLine(l), f) == Ok(Pair(Upper(l.key, f.fold), s, l.comment))
  {
    StretchHash(Closed('\'', s));
    assert l.printed[0] == '\'' && l.printed[|l.printed| - 1] == '\'';
    assert Sound(l);
    SpacedLineRead(l, f);
    UnquoteSingle(s);
    assert ['\''] + s + ['\''] == l.printed;
  }

  // ---------------------------------------------------------------- which line counts

  /** The value of the last line that is a line of the key. */
  function LastRead(lines: seq<string>, key: string, f: Flags): Option<string> {
    if lines == [] then None
    else if LastRead(lines[1..], key, f).Some? then LastRead(lines[1..], key, f)
    else
      match Parse(lines[0], f)
      case Ok(Pair(k, value, _)) => if k == key then Some(value) else None
      case _ => None
  }

  /** Of several lines with the same key the last one counts, and keys without a line are left alone; the keys are in
      the order in which they were first read. */
  lemma {:induction false} ReadIsLast(d: Dict, lines: seq<string>, key: string, f: Flags)
    requires ReadLines(d, lines, f).Ok? && key != ""
    ensures var read := ReadLines(d, lines, f).value;
            && d.keys <= read.keys
            && match LastRead(lines, key, f)
               case Some(value) => key in read.values && read.values[key] == value
               case None => (key in read.values <==> key in d.values) &&
                            (key in d.values ==> read.values[key] == d.values[key])
    decreases lines
  {
    if lines != [] {
      ReadIsLast(Noted(d, Parse(lines[0], f).value), lines[1..], key, f);
    }
  }

  // ---------------------------------------------------------------- letters

  /** r is c, but for a lower-case letter, of which it is the upper-case one, 32 places before it in ASCII. */
  predicate IsUpperOf(r: char, c: char) {
    if c in Text.LOWER then r in Text.UPPER && c as int - r as int == 32 else r == c
  }

  lemma UpperCharIs(c: char)
    ensures IsUpperOf(UpperChar(c), c)
  {
    Text.InLower(c);
    Text.InUpper(UpperChar(c));
  }

  /** upper_ascii puts every letter of an ASCII text in upper case and changes nothing else. */
  lemma {:induction false} UpperOfAscii(s: string, fold: Fold)
    requires IsFold(fold) && AllAscii(s)
    ensures var r := Upper(s, fold);
            |r| == |s| && forall i {:trigger s[i]} :: 0 <= i < |s| ==> IsUpperOf(r[i], s[i])
  {
    if s != "" {
      assert IsAscii(s[0]) && fold(s[0]) == [s[0]];
      assert UpperAscii([s[0]]) == [UpperChar(s[0])] + UpperAscii([s[0]][1..]) == [UpperChar(s[0])];
      UpperCharIs(s[0]);
      forall i {:trigger s[1..][i]} | 0 <= i < |s[1..]| ensures IsAscii(s[1..][i]) {
        assert s[1..][i] == s[i + 1];
      }
      UpperOfAscii(s[1..], fold);
      var r, rest := Upper(s, fold), Upper(s[1..], fold);
      assert r == [UpperChar(s[0])] + rest;
      forall i {:trigger s[i]} | 0 <= i < |s| ensures IsUpperOf(r[i], s[i]) {
        if i > 0 {
          assert s[1..][i - 1] == s[i] && rest[i - 1] == r[i];
        }
      }
    }
  }

  /** Any text is upper-cased piece by piece, and a character outside ASCII as what it decomposes to. */
  lemma {:induction false} UpperByPieces(x: string, y: string, fold: Fold)
    requires IsFold(fold)
    ensures Upper(x + y, fold) == Upper(x, fold) + Upper(y, fold)
    ensures forall c :: Upper([c], fold) == Upper(fold(c), fold)
  {
    if x == "" {
      assert x + y == y;
    } else {
      assert (x + y)[1..] == x[1..] + y;
      UpperByPieces(x[1..], y, fold);
    }
    forall c ensures Upper([c], fold) == Upper(fold(c), fold) {
      UpperOfFolded(c, fold);
    }
  }

  lemma UpperOfFolded(c: char, fold: Fold)
    requires IsFold(fold)
    ensures Upper([c], fold) == Upper(fold(c), fold)
  {
    assert AllAscii(fold(c)) && [c][1..] == "";
    assert Upper([c], fold) == UpperAscii(fold(c)) + Upper([c][1..], fold);
    UpperOfPlain(fold(c), fold);
  }

  lemma {:induction false} UpperOfPlain(s: string, fold: Fold)
    requires IsFold(fold) && AllAscii(s)
    ensures Upper(s, fold) == UpperAscii(s)
  {
    if s != "" {
      assert IsAscii(s[0]) && fold(s[0]) == [s[0]];
      assert UpperAscii([s[0]]) == [UpperChar(s[0])] + UpperAscii([s[0]][1..]) == [UpperChar(s[0])];
      forall i {:trigger s[1..][i]} | 0 <= i < |s[1..]| ensures IsAscii(s[1..][i]) {
        assert s[1..][i] == s[i + 1];
      }
      UpperOfPlain(s[1..], fold);
    }
  }

  // ---------------------------------------------------------------- lines that are kept

  lemma {:induction false} PartitionShape(s: string)
    ensures var (key, found, value) := Partition(s);
            if found then '=' !in key && s == key + (['='] + value) else '=' !in s && key == s && value == ""
  {
    if s != "" && s[0] != '=' {
      PartitionShape(s[1..]);
      var (key, found, value) := Partition(s[1..]);
      assert s == [s[0]] + s[1..];
      assert found ==> s == ([s[0]] + key) + (['='] + value);
      assert forall c :: c in s <==> c == s[0] || c in s[1..];
      assert forall c :: c in [s[0]] + key <==> c == s[0] || c in key;
    }
  }

  /** A line that can be read is a key line exactly if, apart from its comment, it has an equals sign and more than
      whitespace before the first one; every other line is kept as it is. */
  lemma KeyLineIff(line: string, f: Flags)
    requires Parse(line, f).Ok?
    ensures var body := CutComment(line).0;
            Parse(line, f).value.Pair? <==>
            exists key, value :: body == key + (['='] + value) && '=' !in key && Strip(key) != ""
  {
    var body := CutComment(line).0;
    PartitionShape(body);
    if key, value :| body == key + (['='] + value) && '=' !in key && Strip(key) != "" {
      assert body[|key|] == '=';
      var (k, found, v) := Partition(body);
      SameSplit(body, key, value, k, v);
    }
  }

  lemma SameSplit(s: string, x: string, y: string, key: string, value: string)
    requires s == x + (['='] + y) == key + (['='] + value) && '=' !in x && '=' !in key
    ensures x == key
  {
    NotShorter(s, x, y, key);
    NotShorter(s, key, value, x);
    assert x == s[..|x|] && key == s[..|key|];
  }

  lemma NotShorter(s: string, x: string, y: string, key: string)
    requires s == x + (['='] + y) && key <= s && '=' !in key
    ensures |key| <= |x|
  {
    assert s[|x|] == '=';
  }
}
