/** What unquoting gives, told by how a text is put together: words of pieces, each quoted in one of the ways of the
    shell, with whitespace between the words. */
module ShellWords {
  import opened Prelude
  import opened Shlex

  /** A part of a double-quoted piece: a character, or a backslash and a character. */
  datatype Part = Plain(c: char) | Slash(c: char)

  /** A piece of a word: a character as it is, a character after a backslash, or text in single or in double quotes. */
  datatype Piece = Bare(c: char) | Escape(c: char) | Single(s: string) | Double(parts: seq<Part>)

  predicate SoundPart(p: Part) {
    p.Plain? ==> p.c != '"' && p.c != '\\'
  }

  predicate SoundPiece(p: Piece) {
    match p
    case Bare(c) => !IsBlank(c) && c != '\'' && c != '"' && c != '\\'
    case Escape(_) => true
    case Single(s) => forall i {:trigger s[i]} :: 0 <= i < |s| ==> s[i] != '\''
    case Double(parts) => forall i {:trigger parts[i]} :: 0 <= i < |parts| ==> SoundPart(parts[i])
  }

  predicate SoundPieces(ps: seq<Piece>) {
    forall i {:trigger ps[i]} :: 0 <= i < |ps| ==> SoundPiece(ps[i])
  }

  function PartsText(parts: seq<Part>): string {
    if parts == [] then ""
    else (if parts[0].Plain? then [parts[0].c] else ['\\', parts[0].c]) + PartsText(parts[1..])
  }

  /** In double quotes a backslash goes away before a backslash or a double quote, and stays before anything else. */
  function PartsValue(parts: seq<Part>): string {
    if parts == [] then ""
    else
      (if parts[0].Plain? || parts[0].c == '\\' || parts[0].c == '"' then [parts[0].c] else ['\\', parts[0].c]) +
      PartsValue(parts[1..])
  }

  function PieceText(p: Piece): string {
    match p
    case Bare(c) => [c]
    case Escape(c) => ['\\', c]
    case Single(s) => ['\''] + s + ['\'']
    case Double(parts) => ['"'] + PartsText(parts) + ['"']
  }

  function PieceValue(p: Piece): string {
    match p
    case Bare(c) => [c]
    case Escape(c) => [c]
    case Single(s) => s
    case Double(parts) => PartsValue(parts)
  }

  function PiecesText(ps: seq<Piece>): string {
    if ps == [] then "" else PieceText(ps[0]) + PiecesText(ps[1..])
  }

  /** The pieces of a word are put one after another. */
  function PiecesValue(ps: seq<Piece>): string {
    if ps == [] then "" else PieceValue(ps[0]) + PiecesValue(ps[1..])
  }

  // ---------------------------------------------------------------- one piece

  lemma Assoc(a: string, b: string, c: string)
    ensures a + b + c == a + (b + c)
  {
  }

  /** One character read, outside a blank. */
  lemma ReadOne(c: char, rest: string, state: State, word: string)
    requires !((state == Blank || state == Word) && IsBlank(c))
    ensures var (state', word') := Read(state, word, c); Scan([c] + rest, state, word) == Scan(rest, state', word')
  {
    assert ([c] + rest)[1..] == rest;
    ScanRead([c] + rest, state, word);
  }

  lemma {:induction false} ScanSingle(s: string, rest: string, word: string)
    requires SoundPiece(Single(s))
    ensures Scan(s + rest, Quoted('\''), word) == Scan(rest, Quoted('\''), word + s)
    decreases |s|
  {
    if s == "" {
      assert s + rest == rest && word + s == word;
    } else {
      assert s[0] != '\'';
      forall i {:trigger s[1..][i]} | 0 <= i < |s[1..]| ensures s[1..][i] != '\'' {
        assert s[1..][i] == s[i + 1];
      }
      assert s + rest == [s[0]] + (s[1..] + rest);
      ReadOne(s[0], s[1..] + rest, Quoted('\''), word);
      ScanSingle(s[1..], rest, word + [s[0]]);
      assert word + [s[0]] + s[1..] == word + s;
    }
  }

  lemma {:induction false} ScanParts(parts: seq<Part>, rest: string, word: string)
    requires SoundPiece(Double(parts))
    ensures Scan(PartsText(parts) + rest, Quoted('"'), word) == Scan(rest, Quoted('"'), word + PartsValue(parts))
    decreases |parts|
  {
    if parts == [] {
      assert "" + rest == rest && word + "" == word;
    } else {
      var p, more := parts[0], parts[1..];
      assert SoundPart(p);
      forall i {:trigger more[i]} | 0 <= i < |more| ensures SoundPart(more[i]) {
        assert more[i] == parts[i + 1];
      }
      var tail := PartsText(more) + rest;
      var value := if p.Plain? || p.c == '\\' || p.c == '"' then [p.c] else ['\\', p.c];
      ScanPart(p, tail, word);
      Assoc(if p.Plain? then [p.c] else ['\\', p.c], PartsText(more), rest);
      ScanParts(more, rest, word + value);
      Assoc(word, value, PartsValue(more));
    }
  }

  lemma ScanPart(p: Part, rest: string, word: string)
    requires SoundPart(p)
    ensures Scan((if p.Plain? then [p.c] else ['\\', p.c]) + rest, Quoted('"'), word) ==
            Scan(rest, Quoted('"'),
                 word + if p.Plain? || p.c == '\\' || p.c == '"' then [p.c] else ['\\', p.c])
  {
    if p.Plain? {
      ReadOne(p.c, rest, Quoted('"'), word);
    } else {
      assert ['\\', p.c] + rest == ['\\'] + ([p.c] + rest);
      ReadOne('\\', [p.c] + rest, Quoted('"'), word);
      ReadOne(p.c, rest, Escaped(true), word);
    }
  }

  lemma ScanEscape(c: char, rest: string, state: State, word: string)
    requires state == Blank || state == Word
    ensures Scan(['\\', c] + rest, state, word) == Scan(rest, Word, word + [c])
  {
    assert ['\\', c] + rest == ['\\'] + ([c] + rest);
    ReadOne('\\', [c] + rest, state, word);
    ReadOne(c, rest, Escaped(false), word);
  }

  lemma ScanSingleQuoted(s: string, rest: string, state: State, word: string)
    requires SoundPiece(Single(s)) && (state == Blank || state == Word)
    ensures Scan((['\''] + s + ['\'']) + rest, state, word) == Scan(rest, Word, word + s)
  {
    assert (['\''] + s + ['\'']) + rest == ['\''] + (s + (['\''] + rest));
    ReadOne('\'', s + (['\''] + rest), state, word);
    ScanSingle(s, ['\''] + rest, word);
    ReadOne('\'', rest, Quoted('\''), word + s);
  }

  lemma ScanDoubleQuoted(parts: seq<Part>, rest: string, state: State, word: string)
    requires SoundPiece(Double(parts)) && (state == Blank || state == Word)
    ensures Scan((['"'] + PartsText(parts) + ['"']) + rest, state, word) == Scan(rest, Word, word + PartsValue(parts))
  {
    assert (['"'] + PartsText(parts) + ['"']) + rest == ['"'] + (PartsText(parts) + (['"'] + rest));
    ReadOne('"', PartsText(parts) + (['"'] + rest), state, word);
    ScanParts(parts, ['"'] + rest, word);
    ReadOne('"', rest, Quoted('"'), word + PartsValue(parts));
  }

  /** A piece adds its value to the word. */
  lemma ScanPiece(p: Piece, rest: string, state: State, word: string)
    requires SoundPiece(p) && (state == Blank || state == Word)
    ensures Scan(PieceText(p) + rest, state, word) == Scan(rest, Word, word + PieceValue(p))
  {
    match p
    case Bare(c) => ReadOne(c, rest, state, word);
    case Escape(c) => ScanEscape(c, rest, state, word);
    case Single(s) => ScanSingleQuoted(s, rest, state, word);
    case Double(parts) => ScanDoubleQuoted(parts, rest, state, word);
  }

  lemma {:induction false} ScanPieces(ps: seq<Piece>, rest: string, state: State, word: string)
    requires SoundPieces(ps) && (state == Word || (state == Blank && ps != []))
    ensures Scan(PiecesText(ps) + rest, state, word) == Scan(rest, Word, word + PiecesValue(ps))
    decreases |ps|
  {
    if ps == [] {
      assert "" + rest == rest && word + "" == word;
    } else {
      var more := ps[1..];
      forall i {:trigger more[i]} | 0 <= i < |more| ensures SoundPiece(more[i]) {
        assert more[i] == ps[i + 1];
      }
      Assoc(PieceText(ps[0]), PiecesText(more), rest);
      ScanPiece(ps[0], PiecesText(more) + rest, state, word);
      ScanPieces(more, rest, Word, word + PieceValue(ps[0]));
      Assoc(word, PieceValue(ps[0]), PiecesValue(more));
    }
  }

  // ---------------------------------------------------------------- whole texts

  /** A word with the whitespace before it. */
  datatype GapWord = GapWord(gap: string, pieces: seq<Piece>)

  predicate Blanks(s: string) {
    forall i {:trigger s[i]} :: 0 <= i < |s| ==> IsBlank(s[i])
  }

  predicate SoundWords(ws: seq<GapWord>) {
    forall i {:trigger ws[i]} :: 0 <= i < |ws| ==>
      ws[i].pieces != [] && SoundPieces(ws[i].pieces) && Blanks(ws[i].gap) && (i > 0 ==> ws[i].gap != "")
  }

  function WordsText(ws: seq<GapWord>, end: string): string {
    if ws == [] then end else ws[0].gap + (PiecesText(ws[0].pieces) + WordsText(ws[1..], end))
  }

  function WordValues(ws: seq<GapWord>): seq<string> {
    if ws == [] then [] else [PiecesValue(ws[0].pieces)] + WordValues(ws[1..])
  }

  lemma {:induction false} SkipBlanks(gap: string, rest: string)
    requires Blanks(gap)
    ensures Scan(gap + rest, Blank, "") == Scan(rest, Blank, "")
    decreases |gap|
  {
    if gap == "" {
      assert gap + rest == rest;
    } else {
      assert IsBlank(gap[0]);
      forall i {:trigger gap[1..][i]} | 0 <= i < |gap[1..]| ensures IsBlank(gap[1..][i]) {
        assert gap[1..][i] == gap[i + 1];
      }
      assert (gap + rest)[1..] == gap[1..] + rest;
      SkipBlanks(gap[1..], rest);
    }
  }

  /** After a word comes nothing, or whitespace and then the rest. */
  lemma EndOfWord(rest: string, word: string)
    requires rest == "" || IsBlank(rest[0])
    ensures Scan(rest, Word, word) ==
            match Scan(rest, Blank, "")
            case Ok(words) => Ok([word] + words)
            case Err(e) => Err(e)
  {
    if rest == "" {
      assert Scan(rest, Blank, "") == Ok([]) && [word] + [] == [word];
    } else {
      assert Scan(rest, Blank, "") == Scan(rest[1..], Blank, "");
    }
  }

  lemma RestSound(ws: seq<GapWord>)
    requires SoundWords(ws) && ws != []
    ensures SoundWords(ws[1..])
    ensures forall end :: (end == "" || IsBlank(end[0])) ==>
              var rest := WordsText(ws[1..], end); rest == "" || IsBlank(rest[0])
  {
    forall i {:trigger ws[1..][i]} | 0 <= i < |ws[1..]|
      ensures var w := ws[1..][i]; w.pieces != [] && SoundPieces(w.pieces) && Blanks(w.gap) && w.gap != ""
    {
      assert ws[1..][i] == ws[i + 1];
    }
  }

  /** Splitting gives the values of the words, whatever whitespace is around them; and if something that cannot be split
      follows the last word, the error it gives. */
  lemma {:induction false} SplitWords(ws: seq<GapWord>, end: string)
    requires SoundWords(ws) && (end == "" || IsBlank(end[0]))
    ensures Split(WordsText(ws, end)) ==
            match Split(end)
            case Ok(words) => Ok(WordValues(ws) + words)
            case Err(e) => Err(e)
    decreases |ws|
  {
    if ws == [] {
      if Split(end).Ok? {
        assert WordValues(ws) + Split(end).value == Split(end).value;
      }
    } else {
      var rest := WordsText(ws[1..], end);
      RestSound(ws);
      FirstWord(ws[0], rest);
      SplitWords(ws[1..], end);
      if Split(end).Ok? {
        AssocWords(PiecesValue(ws[0].pieces), WordValues(ws[1..]), Split(end).value);
      }
    }
  }

  lemma FirstWord(w: GapWord, rest: string)
    requires w.pieces != [] && SoundPieces(w.pieces) && Blanks(w.gap) && (rest == "" || IsBlank(rest[0]))
    ensures Split(w.gap + (PiecesText(w.pieces) + rest)) ==
            match Split(rest)
            case Ok(words) => Ok([PiecesValue(w.pieces)] + words)
            case Err(e) => Err(e)
  {
    SkipBlanks(w.gap, PiecesText(w.pieces) + rest);
    ScanPieces(w.pieces, rest, Blank, "");
    assert "" + PiecesValue(w.pieces) == PiecesValue(w.pieces);
    EndOfWord(rest, PiecesValue(w.pieces));
  }

  lemma AssocWords(first: string, rest: seq<string>, more: seq<string>)
    ensures [first] + (rest + more) == ([first] + rest) + more
  {
  }

  /** Words put together with one blank between them. */
  function Spread(words: seq<string>): string {
    if words == [] then "" else words[0] + if |words| == 1 then "" else [' '] + Spread(words[1..])
  }

  lemma {:induction false} JoinIsSpread(words: seq<string>)
    ensures Join(words) == Spread(words)
  {
    if |words| > 1 {
      JoinIsSpread(words[1..]);
      assert " " == [' '];
      Assoc(words[0], " ", Join(words[1..]));
    } else if |words| == 1 {
      assert words[0] + "" == words[0];
    }
  }

  /** Unquoting gives the values of the words with one blank between them. */
  lemma UnquoteWords(ws: seq<GapWord>, end: string)
    requires SoundWords(ws) && Blanks(end)
    ensures Unquote(WordsText(ws, end)) == Ok(Spread(WordValues(ws)))
  {
    SkipBlanks(end, "");
    assert end + "" == end;
    assert Split(end) == Ok([]);
    SplitWords(ws, end);
    assert WordValues(ws) + [] == WordValues(ws);
    JoinIsSpread(WordValues(ws));
  }

  /** In particular, a single-quoted text is what is between the quotes. */
  lemma UnquoteSingle(s: string)
    requires SoundPiece(Single(s))
    ensures Unquote(['\''] + s + ['\'']) == Ok(s)
  {
    var ps := [Single(s)];
    assert ps[1..] == [] && PiecesText(ps) == PieceText(Single(s)) + "" && PiecesValue(ps) == s + "";
    var ws := [GapWord("", ps)];
    assert ws[1..] == [] && WordsText(ws, "") == "" + (PiecesText(ps) + "");
    assert PieceText(Single(s)) + "" == PieceText(Single(s)) && s + "" == s;
    assert "" + (PiecesText(ps) + "") == ['\''] + s + ['\''];
    UnquoteWords(ws, "");
    assert WordValues(ws) == [s];
  }

  // ---------------------------------------------------------------- texts that cannot be unquoted

  /** What a text breaks off in, after some pieces of its last word. */
  datatype Open = OpenSingle(s: string) | OpenDouble(parts: seq<Part>) | OpenEscape | OpenPart(parts: seq<Part>)

  predicate SoundOpen(o: Open) {
    match o
    case OpenSingle(s) => SoundPiece(Single(s))
    case OpenDouble(parts) => SoundPiece(Double(parts))
    case OpenEscape => true
    case OpenPart(parts) => SoundPiece(Double(parts))
  }

  function OpenText(o: Open): string {
    match o
    case OpenSingle(s) => ['\''] + s
    case OpenDouble(parts) => ['"'] + PartsText(parts)
    case OpenEscape => ['\\']
    case OpenPart(parts) => ['"'] + (PartsText(parts) + ['\\'])
  }

  function ErrorOf(o: Open): Error {
    if o.OpenSingle? || o.OpenDouble? then NoClosingQuotation else NoEscapedCharacter
  }

  lemma ScanOpen(o: Open, state: State, word: string)
    requires SoundOpen(o) && (state == Blank || state == Word)
    ensures Scan(OpenText(o), state, word) == Err(ErrorOf(o))
  {
    match o
    case OpenSingle(s) =>
      ReadOne('\'', s, state, word);
      ScanSingle(s, "", word);
      assert s + "" == s;
    case OpenDouble(parts) =>
      ReadOne('"', PartsText(parts), state, word);
      ScanParts(parts, "", word);
      assert PartsText(parts) + "" == PartsText(parts);
    case OpenEscape =>
      assert ['\\'] + "" == ['\\'];
      ReadOne('\\', "", state, word);
    case OpenPart(parts) =>
      ReadOne('"', PartsText(parts) + ['\\'], state, word);
      ScanParts(parts, ['\\'], word);
      assert ['\\'] + "" == ['\\'];
      ReadOne('\\', "", Quoted('"'), word + PartsValue(parts));
  }

  /** A text that breaks off inside quotes or after a backslash cannot be unquoted. */
  lemma UnquoteOpen(ws: seq<GapWord>, gap: string, ps: seq<Piece>, o: Open)
    requires SoundWords(ws) && Blanks(gap) && (ws != [] ==> gap != "") && SoundPieces(ps) && SoundOpen(o)
    ensures Unquote(WordsText(ws, gap + (PiecesText(ps) + OpenText(o)))) == Err(ErrorOf(o))
  {
    var end := gap + (PiecesText(ps) + OpenText(o));
    SkipBlanks(gap, PiecesText(ps) + OpenText(o));
    if ps == [] {
      assert "" + OpenText(o) == OpenText(o);
      ScanOpen(o, Blank, "");
    } else {
      ScanPieces(ps, OpenText(o), Blank, "");
      ScanOpen(o, Word, "" + PiecesValue(ps));
    }
    if ws != [] {
      assert end[0] == gap[0] && IsBlank(gap[0]);
      SplitWords(ws, end);
    }
  }
}
