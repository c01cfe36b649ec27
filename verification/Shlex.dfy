/** Quoting of shell words. Splitting is an assumption about shlex.split of the Python library in its POSIX mode:
    split at whitespace only, no comments; the state machine is written out here. */
module Shlex {
  import opened Prelude
  import Text

  datatype Error = NoClosingQuotation | NoEscapedCharacter

  /** Where the splitter is: between words, in a word, inside quotes, or after a backslash. */
  datatype State = Blank | Word | Quoted(quote: char) | Escaped(inQuotes: bool)

  predicate IsBlank(c: char) {
    c == ' ' || c == '\t' || c == '\r' || c == '\n'
  }

  predicate IsQuote(c: char) {
    c == '"' || c == '\''
  }

  /** The state and the word after a character that does not end a word. */
  function Read(state: State, word: string, c: char): (State, string) {
    match state
    case Quoted(q) =>
      if c == q then (Word, word)
      else if c == '\\' && q == '"' then (Escaped(true), word)
      else (state, word + [c])
    case Escaped(inQuotes) =>
      if inQuotes then (Quoted('"'), if c == '\\' || c == '"' then word + [c] else word + ['\\', c])
      else (Word, word + [c])
    case _ =>
      if c == '\\' then (Escaped(false), word)
      else if IsQuote(c) then (Quoted(c), word)
      else (Word, word + [c])
  }

  function Scan(text: string, state: State, word: string): Result<seq<string>, Error>
    decreases |text|
  {
    if text == "" then
      match state
      case Blank => Ok([])
      case Word => Ok([word])
      case Quoted(_) => Err(NoClosingQuotation)
      case Escaped(_) => Err(NoEscapedCharacter)
    else if state == Blank && IsBlank(text[0]) then Scan(text[1..], Blank, "")
    else if state == Word && IsBlank(text[0]) then
      match Scan(text[1..], Blank, "")
      case Ok(words) => Ok([word] + words)
      case Err(e) => Err(e)
    else
      var (state', word') := Read(state, word, text[0]);
      Scan(text[1..], state', word')
  }

  function Split(text: string): Result<seq<string>, Error> {
    Scan(text, Blank, "")
  }

  /** Words joined by a blank. */
  function Join(words: seq<string>): string {
    if words == [] then "" else if |words| == 1 then words[0] else words[0] + " " + Join(words[1..])
  }

  function Joined(words: Result<seq<string>, Error>): Result<string, Error> {
    match words
    case Ok(words) => Ok(Join(words))
    case Err(e) => Err(e)
  }

  /** unquote. */
  function Unquote(s: string): Result<string, Error> {
    Joined(Split(s))
  }

  predicate IsSafe(c: char) {
    'a' <= c <= 'z' || 'A' <= c <= 'Z' || '0' <= c <= '9' ||
    c == '@' || c == '%' || c == '_' || c == '-' || c == '+' || c == '=' || c == ':' || c == ',' || c == '.' || c == '/'
  }

  predicate AllSafe(s: string) {
    forall i {:trigger s[i]} :: 0 <= i < |s| ==> IsSafe(s[i])
  }

  const MARKS := "@%_-+=:,./"
  const SAFECHARS := Text.LOWER + Text.UPPER + Text.DIGITS + MARKS

  lemma InMarks(c: char)
    ensures c in MARKS <==>
            c == '@' || c == '%' || c == '_' || c == '-' || c == '+' || c == '=' || c == ':' || c == ',' ||
            c == '.' || c == '/'
  {
    assert MARKS[0] == '@' && MARKS[1] == '%' && MARKS[2] == '_' && MARKS[3] == '-' && MARKS[4] == '+';
    assert MARKS[5] == '=' && MARKS[6] == ':' && MARKS[7] == ',' && MARKS[8] == '.' && MARKS[9] == '/';
  }

  lemma SafeIffInList(c: char)
    ensures IsSafe(c) <==> c in SAFECHARS
  {
    Text.InLower(c);
    Text.InUpper(c);
    Text.InDigits(c);
    InMarks(c);
    assert c in SAFECHARS <==> c in Text.LOWER || c in Text.UPPER || c in Text.DIGITS || c in MARKS;
  }

  lemma {:induction false} EscapeLonger(s: string)
    ensures |EscapeQuotes(s)| >= |s|
  {
    if s != "" {
      EscapeLonger(s[1..]);
    }
  }

  /** Every double quote after a backslash. */
  function EscapeQuotes(s: string): string {
    if s == "" then "" else (if s[0] == '"' then ['\\', '"'] else [s[0]]) + EscapeQuotes(s[1..])
  }

  function InQuotes(s: string): string {
    ['"'] + (EscapeQuotes(s) + ['"'])
  }

  /** quote: as a function, and the loop that looks for an unsafe character. */
  function Quote(s: string, always: bool): string {
    if !always && AllSafe(s) then s else InQuotes(s)
  }

  lemma InListIfSafe(s: string)
    ensures AllSafe(s) <==> forall i {:trigger s[i]} :: 0 <= i < |s| ==> s[i] in SAFECHARS
  {
    forall i {:trigger s[i]} | 0 <= i < |s| ensures IsSafe(s[i]) <==> s[i] in SAFECHARS {
      SafeIffInList(s[i]);
    }
  }

  method QuoteValue(s: string, always: bool) returns (r: string)
    ensures r == Quote(s, always)
    ensures r == s || r == ['"'] + (EscapeQuotes(s) + ['"'])
    ensures r == s <==> !always && forall i {:trigger s[i]} :: 0 <= i < |s| ==> s[i] in SAFECHARS
  {
    InListIfSafe(s);
    EscapeLonger(s);
    if !always {
      var i := 0;
      while i < |s| && IsSafe(s[i])
        invariant 0 <= i <= |s|
        invariant forall j :: 0 <= j < i ==> IsSafe(s[j])
      {
        i := i + 1;
      }
      if i == |s| {
        return s;
      }
    }
    r := InQuotes(s);
  }

  // ---------------------------------------------------------------- when unquoting undoes quoting

  /** No backslash comes last, or before a backslash or a double quote. */
  predicate Plain(s: string) {
    forall i {:trigger s[i]} :: 0 <= i < |s| && s[i] == '\\' ==> i + 1 < |s| && s[i + 1] != '\\' && s[i + 1] != '"'
  }

  /** A character that does not end a word. */
  lemma ScanRead(text: string, state: State, word: string)
    requires text != "" && !((state == Blank || state == Word) && IsBlank(text[0]))
    ensures var (state', word') := Read(state, word, text[0]); Scan(text, state, word) == Scan(text[1..], state', word')
  {
  }

  lemma EscapeFirst(s: string)
    requires s != ""
    ensures EscapeQuotes(s) + ['"'] ==
            if s[0] == '"' then ['\\'] + (['"'] + (EscapeQuotes(s[1..]) + ['"']))
            else [s[0]] + (EscapeQuotes(s[1..]) + ['"'])
  {
  }

  lemma ScanCons(c: char, rest: string, state: State, word: string)
    requires !((state == Blank || state == Word) && IsBlank(c))
    ensures var (state', word') := Read(state, word, c); Scan([c] + rest, state, word) == Scan(rest, state', word')
  {
    assert ([c] + rest)[1..] == rest;
    ScanRead([c] + rest, state, word);
  }

  lemma ScanEscape(c: char, rest: string, word: string)
    ensures Scan(['\\'] + ([c] + rest), Quoted('"'), word) ==
            Scan(rest, Quoted('"'), if c == '\\' || c == '"' then word + [c] else word + ['\\', c])
  {
    ScanCons('\\', [c] + rest, Quoted('"'), word);
    ScanCons(c, rest, Escaped(true), word);
  }

  /** Inside double quotes, a plain text is read back as it was. */
  lemma {:induction false} ScanPlain(s: string, word: string)
    requires Plain(s)
    ensures Scan(EscapeQuotes(s) + ['"'], Quoted('"'), word) == Ok([word + s])
    decreases |s|
  {
    if s == "" {
      ScanCons('"', "", Quoted('"'), word);
      assert EscapeQuotes(s) + ['"'] == ['"'] + "";
      assert word + s == word;
    } else {
      EscapeFirst(s);
      PlainRest(s);
      var rest := EscapeQuotes(s[1..]) + ['"'];
      if s[0] == '"' {
        ScanEscape('"', rest, word);
        ScanPlain(s[1..], word + ['"']);
        assert word + ['"'] + s[1..] == word + s;
      } else if s[0] == '\\' {
        EscapeFirst(s[1..]);
        PlainRest(s[1..]);
        assert s[1..][1..] == s[2..];
        ScanEscape(s[1], EscapeQuotes(s[2..]) + ['"'], word);
        ScanPlain(s[2..], word + ['\\', s[1]]);
        assert word + ['\\', s[1]] + s[2..] == word + s;
      } else {
        ScanCons(s[0], rest, Quoted('"'), word);
        ScanPlain(s[1..], word + [s[0]]);
        assert word + [s[0]] + s[1..] == word + s;
      }
    }
  }

  lemma PlainRest(s: string)
    requires s != "" && Plain(s)
    ensures Plain(s[1..])
    ensures s[0] == '\\' ==> |s| > 1 && s[1] != '\\' && s[1] != '"'
  {
    forall i {:trigger s[1..][i]} | 0 <= i < |s[1..]| && s[1..][i] == '\\'
      ensures i + 1 < |s[1..]| && s[1..][i + 1] != '\\' && s[1..][i + 1] != '"'
    {
      assert s[i + 1] == '\\';
      assert s[1..][i] == s[i + 1];
    }
  }

  /** Safe characters are read as one word. */
  lemma {:induction false} ScanSafe(s: string, word: string)
    requires AllSafe(s)
    ensures Scan(s, Word, word) == Ok([word + s])
    decreases |s|
  {
    if s == "" {
      assert word + s == word;
    } else {
      assert IsSafe(s[0]);
      ScanRead(s, Word, word);
      ScanSafe(s[1..], word + [s[0]]);
      assert word + [s[0]] + s[1..] == word + s;
    }
  }

  lemma UnquoteSafe(s: string)
    requires AllSafe(s)
    ensures Unquote(s) == Ok(s)
  {
    if s != "" {
      assert IsSafe(s[0]);
      ScanRead(s, Blank, "");
      ScanSafe(s[1..], "" + [s[0]]);
      assert "" + [s[0]] + s[1..] == s;
      assert Split(s) == Ok([s]);
    }
  }

  // ---------------------------------------------------------------- and when it does not

  function Count(s: string, c: char): nat {
    if s == "" then 0 else (if s[0] == c then 1 else 0) + Count(s[1..], c)
  }

  lemma {:induction false} CountConcat(x: string, y: string, c: char)
    ensures Count(x + y, c) == Count(x, c) + Count(y, c)
  {
    if x == "" {
      assert x + y == y;
    } else {
      assert (x + y)[1..] == x[1..] + y;
      CountConcat(x[1..], y, c);
    }
  }

  lemma CountOne(c: char, d: char)
    ensures Count([c], d) == if c == d then 1 else 0
  {
    assert [c][1..] == "";
  }

  /** The splitter goes through single quotes, or is in them. */
  predicate EntersSingle(text: string, state: State)
    decreases |text|
  {
    state == Quoted('\'') ||
    (text != "" &&
     EntersSingle(text[1..],
                  if (state == Blank || state == Word) && IsBlank(text[0]) then Blank else Read(state, "", text[0]).0))
  }

  lemma JoinFirst(word: string, words: seq<string>)
    ensures Join([word] + words) == if words == [] then word else word + " " + Join(words)
  {
    assert ([word] + words)[1..] == words;
  }

  /** Every single quote that is read comes from one of the text. */
  lemma CountRead(state: State, word: string, c: char)
    ensures Count(Read(state, word, c).1, '\'') <= Count(word, '\'') + (if c == '\'' then 1 else 0)
    ensures Read(state, word, c).0 == Quoted('\'') && state != Quoted('\'') ==>
              Count(Read(state, word, c).1, '\'') < Count(word, '\'') + (if c == '\'' then 1 else 0)
  {
    CountConcat(word, [c], '\'');
    CountConcat(word, ['\\', c], '\'');
    CountOne(c, '\'');
    assert ['\\', c][1..] == [c];
  }

  /** In words read without an error, single quotes come from the text, and those that open or close do not appear. */
  lemma {:induction false} CountScan(text: string, state: State, word: string)
    requires Scan(text, state, word).Ok?
    ensures var words := Scan(text, state, word).value;
            Count(Join(words), '\'') + (if EntersSingle(text, state) && state != Quoted('\'') then 1 else 0)
              <= Count(word, '\'') + Count(text, '\'')
    decreases |text|
  {
    if text != "" {
      var rest := text[1..];
      if (state == Blank || state == Word) && IsBlank(text[0]) {
        CountScan(rest, Blank, "");
        if state == Word {
          CountJoinFirst(word, Scan(rest, Blank, "").value);
        }
      } else {
        var (state', word') := Read(state, word, text[0]);
        ScanRead(text, state, word);
        CountScan(rest, state', word');
        CountRead(state, word, text[0]);
        assert state'  == Read(state, "", text[0]).0;
      }
    }
  }

  lemma CountJoinFirst(word: string, words: seq<string>)
    ensures Count(Join([word] + words), '\'') == Count(word, '\'') + Count(Join(words), '\'')
  {
    JoinFirst(word, words);
    CountConcat(word + " ", Join(words), '\'');
    CountConcat(word, " ", '\'');
    CountOne(' ', '\'');
  }

  lemma {:induction false} CountEscaped(s: string)
    ensures Count(EscapeQuotes(s), '\'') == Count(s, '\'')
  {
    if s != "" {
      CountEscaped(s[1..]);
      var first := if s[0] == '"' then ['\\', '"'] else [s[0]];
      CountConcat(first, EscapeQuotes(s[1..]), '\'');
      CountOne(s[0], '\'');
      assert ['\\', '"'][1..] == ['"'];
      CountOne('"', '\'');
    }
  }

  lemma EntersCons(c: char, rest: string, state: State)
    requires !((state == Blank || state == Word) && IsBlank(c)) && state != Quoted('\'')
    ensures EntersSingle([c] + rest, state) == EntersSingle(rest, Read(state, "", c).0)
  {
    assert ([c] + rest)[1..] == rest;
  }

  /** One character read, in every respect at once. */
  lemma ReadCons(c: char, rest: string, state: State, word: string)
    requires !((state == Blank || state == Word) && IsBlank(c)) && state != Quoted('\'')
    ensures var (state', word') := Read(state, word, c);
            Scan([c] + rest, state, word) == Scan(rest, state', word') &&
              EntersSingle([c] + rest, state) == EntersSingle(rest, state')
  {
    ScanCons(c, rest, state, word);
    EntersCons(c, rest, state);
    assert Read(state, "", c).0 == Read(state, word, c).0;
  }

  /** What is left of a quoted value after some of it was read. */
  function Rest(s: string): string {
    EscapeQuotes(s) + ['"']
  }

  /** The words read from the rest are no longer than what was put in. */
  ghost predicate NoLonger(s: string, state: State, word: string) {
    Scan(Rest(s), state, word).Ok? && !EntersSingle(Rest(s), state) ==>
      |Join(Scan(Rest(s), state, word).value)| <= |word| + |s| + (if state.Escaped? then 1 else 0)
  }

  lemma {:induction false} LengthScan(s: string, state: State, word: string)
    requires state != Quoted('\'') && (state.Quoted? ==> state.quote == '"')
    ensures NoLonger(s, state, word)
    decreases |s|
  {
    if s == "" {
      LengthEnd(state, word);
    } else {
      EscapeFirst(s);
      var rest := s[1..];
      if s[0] == '"' {
        LengthQuote(s, state, word);
      } else if (state == Blank || state == Word) && IsBlank(s[0]) {
        assert Rest(s)[1..] == Rest(rest);
        LengthScan(rest, Blank, "");
        if state == Word && Scan(Rest(rest), Blank, "").Ok? {
          JoinFirst(word, Scan(Rest(rest), Blank, "").value);
        }
      } else {
        ReadCons(s[0], Rest(rest), state, word);
        var (state', word') := Read(state, word, s[0]);
        if state' != Quoted('\'') {
          LengthScan(rest, state', word');
        }
      }
    }
  }

  lemma LengthEnd(state: State, word: string)
    requires state != Quoted('\'')
    ensures NoLonger("", state, word)
  {
    assert Rest("") == ['"'] + "";
    ReadCons('"', "", state, word);
  }

  /** Reading an escaped double quote. */
  lemma ReadEscapedQuote(state: State, word: string)
    requires state != Quoted('\'') && (state.Quoted? ==> state.quote == '"')
    ensures var (state1, word1) := Read(state, word, '\\');
            var (state2, word2) := Read(state1, word1, '"');
            && state1 != Quoted('\'') && (state1 == Blank || state1 == Word ==> state == Escaped(false))
            && state2 != Quoted('\'') && (state2.Quoted? ==> state2.quote == '"')
            && |word2| + (if state2.Escaped? then 1 else 0) <= |word| + 1 + (if state.Escaped? then 1 else 0)
  {
  }

  lemma LengthQuote(s: string, state: State, word: string)
    requires s != "" && s[0] == '"' && state != Quoted('\'') && (state.Quoted? ==> state.quote == '"')
    ensures NoLonger(s, state, word)
    decreases |s|, 0
  {
    EscapeFirst(s);
    var rest := s[1..];
    var (state1, word1) := Read(state, word, '\\');
    var (state2, word2) := Read(state1, word1, '"');
    ReadEscapedQuote(state, word);
    assert Rest(s) == ['\\'] + (['"'] + Rest(rest));
    ReadCons('\\', ['"'] + Rest(rest), state, word);
    ReadCons('"', Rest(rest), state1, word1);
    LengthScan(rest, state2, word2);
  }

  ghost predicate Shorter(s: string, word: string) {
    Scan(Rest(s), Quoted('"'), word).Ok? && !EntersSingle(Rest(s), Quoted('"')) ==>
      |Join(Scan(Rest(s), Quoted('"'), word).value)| < |word| + |s|
  }

  /** Two characters of which the first is a backslash that is lost. */
  lemma BackslashLost(s: string, word: string)
    requires s != "" && s[0] == '\\' && (|s| == 1 || s[1] == '\\' || s[1] == '"')
    ensures Shorter(s, word)
  {
    EscapeFirst(s);
    var rest := s[1..];
    ReadCons('\\', Rest(rest), Quoted('"'), word);
    if |s| == 1 {
      assert Rest(rest) == ['"'] + "";
      ReadCons('"', "", Escaped(true), word);
    } else {
      EscapeFirst(rest);
      assert rest[1..] == s[2..];
      if s[1] == '\\' {
        ReadCons('\\', Rest(s[2..]), Escaped(true), word);
        LengthScan(s[2..], Quoted('"'), word + ['\\']);
      } else {
        ReadCons('\\', ['"'] + Rest(s[2..]), Escaped(true), word);
        ReadCons('"', Rest(s[2..]), Quoted('"'), word + ['\\']);
        LengthScan(s[2..], Word, word + ['\\']);
      }
    }
  }

  lemma PlainCons(s: string)
    requires s != "" && Plain(s[1..])
    requires s[0] == '\\' ==> |s| > 1 && s[1] != '\\' && s[1] != '"'
    ensures Plain(s)
  {
  }

  /** Inside double quotes, a text that is not plain loses a character unless single quotes are lost. */
  lemma {:induction false} ScanNotPlain(s: string, word: string)
    requires !Plain(s)
    ensures Shorter(s, word)
    decreases |s|
  {
    EscapeFirst(s);
    var rest := s[1..];
    if s[0] == '\\' && (|s| == 1 || s[1] == '\\' || s[1] == '"') {
      BackslashLost(s, word);
    } else if s[0] == '\\' {
      if Plain(s[2..]) {
        assert rest[1..] == s[2..];
        PlainCons(rest);
        PlainCons(s);
      }
      EscapeFirst(rest);
      assert rest[1..] == s[2..];
      ReadCons('\\', Rest(rest), Quoted('"'), word);
      ReadCons(s[1], Rest(s[2..]), Escaped(true), word);
      ScanNotPlain(s[2..], word + ['\\', s[1]]);
    } else {
      if Plain(rest) {
        PlainCons(s);
      }
      if s[0] == '"' {
        ReadCons('\\', ['"'] + Rest(rest), Quoted('"'), word);
        ReadCons('"', Rest(rest), Escaped(true), word);
      } else {
        ReadCons(s[0], Rest(rest), Quoted('"'), word);
      }
      ScanNotPlain(rest, word + [s[0]]);
    }
  }

  lemma QuotedNotPlain(s: string)
    requires !Plain(s)
    ensures Unquote(InQuotes(s)) != Ok(s)
  {
    ReadCons('"', Rest(s), Blank, "");
    ScanNotPlain(s, "");
    if Unquote(InQuotes(s)).Ok? {
      CountScan(Rest(s), Quoted('"'), "");
      CountConcat(EscapeQuotes(s), ['"'], '\'');
      CountOne('"', '\'');
      CountEscaped(s);
    }
  }

  lemma QuotedPlain(s: string)
    requires Plain(s)
    ensures Unquote(InQuotes(s)) == Ok(s)
  {
    ReadCons('"', Rest(s), Blank, "");
    ScanPlain(s, "");
    assert "" + s == s;
  }

  lemma SafeIsPlain(s: string)
    requires AllSafe(s)
    ensures Plain(s)
  {
  }

  /** Unquoting undoes quoting exactly for plain strings, whether always quoted or not. */
  lemma UnquoteQuote(s: string, always: bool)
    ensures Unquote(Quote(s, always)) == Ok(s) <==> Plain(s)
  {
    if !always && AllSafe(s) {
      UnquoteSafe(s);
      SafeIsPlain(s);
    } else if Plain(s) {
      QuotedPlain(s);
    } else {
      QuotedNotPlain(s);
    }
  }

  /** A value that ends in a backslash never comes back, however it is quoted. */
  lemma TrailingBackslash(s: string, always: bool)
    ensures Unquote(Quote(s + ['\\'], always)) != Ok(s + ['\\'])
  {
    assert (s + ['\\'])[|s|] == '\\';
    UnquoteQuote(s + ['\\'], always);
  }

  /** Such a value cannot be read back at all: its closing quote counts as escaped. */
  lemma BackslashUnclosed(always: bool)
    ensures Unquote(Quote("a\\", always)) == Err(NoClosingQuotation)
  {
    var s := "a\\";
    assert !IsSafe(s[1]);
    assert EscapeQuotes(s[1..]) == "\\" && EscapeQuotes(s) == "a\\";
    assert Quote(s, always) == "\"a\\\"";
    ScanRead("\"a\\\"", Blank, "");
    ScanRead("a\\\"", Quoted('"'), "");
    ScanRead("\\\"", Quoted('"'), "a");
    ScanRead("\"", Escaped(true), "a");
    assert "\"a\\\""[1..] == "a\\\"" && "a\\\""[1..] == "\\\"" && "\\\""[1..] == "\"" && "\""[1..] == "";
    assert "" + ['a'] == "a" && "a" + ['"'] == "a\"";
  }
}
