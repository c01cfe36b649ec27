/** A configuration file that is read, edited, printed and read again. */
module ConfigFile {
  import opened Prelude
  import opened TextFiles
  import opened SimpleConfig
  import Shlex
  import Whitespace

  // ---------------------------------------------------------------- the editor

  lemma {:induction false} ReadConcat(d: Dict, x: seq<string>, y: seq<string>, f: Flags)
    ensures ReadLines(d, x + y, f) ==
            match ReadLines(d, x, f) case Ok(e) => ReadLines(e, y, f) case Err(e) => Err(e)
    decreases x
  {
    if x == [] {
      assert x + y == y;
    } else {
      assert (x + y)[1..] == x[1..] + y;
      if Parse(x[0], f).Ok? {
        ReadConcat(Noted(d, Parse(x[0], f).value), x[1..], y, f);
      }
    }
  }

  lemma {:induction false} NewRowsConcat(x: seq<string>, y: seq<string>, done: seq<string>, d: Dict, f: Flags)
    requires (forall k :: k in x ==> k in d.values) && (forall k :: k in y ==> k in d.values)
    ensures NewRows(x + y, done, d, f) == NewRows(x, done, d, f) + NewRows(y, done, d, f)
  {
    if x == [] {
      assert x + y == y;
    } else {
      assert (x + y)[1..] == x[1..] + y;
      NewRowsConcat(x[1..], y, done, d, f);
      Assoc(NewRow(x[0], done, d, f), NewRows(x[1..], done, d, f), NewRows(y, done, d, f));
    }
  }

  /** What was printed of the lines so far, and their keys. */
  ghost predicate PrintedSoFar(lines: seq<string>, s: string, done: seq<string>, d: Dict, f: Flags) {
    Readable(lines, f) && s == Concat(OldRows(lines, d, f)) && done == OldKeys(lines, d, f)
  }

  lemma OneRow(line: string, d: Dict, f: Flags)
    requires Parse(line, f).Ok?
    ensures Readable([line], f) && OldRows([line], d, f) == Reprint(line, d, f) &&
        OldKeys([line], d, f) == KeyOf(line, d, f)
  {
    assert [line][1..] == [];
  }

  lemma ReadableNext(lines: seq<string>, line: string, f: Flags)
    requires Readable(lines, f) && Parse(line, f).Ok?
    ensures Readable(lines + [line], f)
  {
  }

  /** One more line printed. */
  lemma PrintNext(lines: seq<string>, line: string, s: string, done: seq<string>, d: Dict, f: Flags)
    requires PrintedSoFar(lines, s, done, d, f) && Parse(line, f).Ok?
    ensures PrintedSoFar(lines + [line], s + Concat(Reprint(line, d, f)), done + KeyOf(line, d, f), d, f)
  {
    ReadableNext(lines, line, f);
    OneRow(line, d, f);
    LinesConcat(lines, [line], d, f);
    ConcatBoth(OldRows(lines, d, f), Reprint(line, d, f));
  }

  /** What a line adds to the text, and to the keys. */
  lemma ReprintText(line: string, d: Dict, f: Flags)
    requires Parse(line, f).Ok?
    ensures match Parse(line, f).value
            case Other(_) => Concat(Reprint(line, d, f)) == line && KeyOf(line, d, f) == []
            case Pair(key, _, comment) =>
              if key in d.values
              then Concat(Reprint(line, d, f)) == KeyRow(key, d.values[key], comment, f) && KeyOf(line, d, f) == [key]
              else Concat(Reprint(line, d, f)) == "" && KeyOf(line, d, f) == []
  {
    match Parse(line, f).value
    case Other(_) => ConcatOne(line);
    case Pair(key, _, comment) =>
      if key in d.values {
        ConcatOne(KeyRow(key, d.values[key], comment, f));
      }
  }

  lemma PrintLine(lines: seq<string>, i: nat, s: string, done: seq<string>, d: Dict, f: Flags)
    requires i < |lines| && PrintedSoFar(lines[..i], s, done, d, f) && Parse(lines[i], f).Ok?
    ensures match Parse(lines[i], f).value
            case Other(_) => PrintedSoFar(lines[..i + 1], s + lines[i], done, d, f)
            case Pair(key, _, comment) =>
              if key in d.values
              then PrintedSoFar(lines[..i + 1], s + KeyRow(key, d.values[key], comment, f), done + [key], d, f)
              else PrintedSoFar(lines[..i + 1], s, done, d, f)
  {
    assert lines[..i + 1] == lines[..i] + [lines[i]];
    PrintNext(lines[..i], lines[i], s, done, d, f);
    ReprintText(lines[i], d, f);
    assert s + "" == s && done + [] == done;
  }

  lemma AddNext(d: Dict, i: nat, done: seq<string>, f: Flags)
    requires Valid(d) && i < |d.keys|
    ensures Concat(NewRows(d.keys[..i + 1], done, d, f)) ==
            Concat(NewRows(d.keys[..i], done, d, f)) +
            if d.keys[i] in done then "" else KeyRow(d.keys[i], d.values[d.keys[i]], "", f)
  {
    assert d.keys[..i + 1] == d.keys[..i] + [d.keys[i]];
    assert [d.keys[i]][1..] == [];
    NewRowsConcat(d.keys[..i], [d.keys[i]], done, d, f);
    ConcatBoth(NewRows(d.keys[..i], done, d, f), NewRows([d.keys[i]], done, d, f));
    if d.keys[i] !in done {
      ConcatOne(KeyRow(d.keys[i], d.values[d.keys[i]], "", f));
    }
  }

  /** What reading the first i lines has made of the lines and the keys. */
  ghost predicate ReadSoFar(d: Dict, before: seq<string>, all: seq<string>, i: nat, e: Dict, lines: seq<string>,
                            f: Flags) {
    i <= |all| && ReadLines(d, all[..i], f) == Ok(e) && lines == before + all[..i]
  }

  lemma ReadOne(d: Dict, line: string, rest: seq<string>, f: Flags)
    ensures ReadLines(d, [line] + rest, f) ==
            if Parse(line, f).Ok? then ReadLines(Noted(d, Parse(line, f).value), rest, f) else Err(Parse(line, f).error)
  {
    assert ([line] + rest)[1..] == rest;
  }

  /** One more line read. */
  lemma ReadNext(d: Dict, all: seq<string>, i: nat, e: Dict, f: Flags)
    requires i < |all| && ReadLines(d, all[..i], f) == Ok(e) && Parse(all[i], f).Ok?
    ensures ReadLines(d, all[..i + 1], f) == Ok(Noted(e, Parse(all[i], f).value))
  {
    ReadConcat(d, all[..i], [all[i]] + [], f);
    ReadOne(e, all[i], [], f);
    assert all[..i + 1] == all[..i] + ([all[i]] + []);
  }

  lemma ReadFails(d: Dict, all: seq<string>, i: nat, e: Dict, f: Flags)
    requires i < |all| && ReadLines(d, all[..i], f) == Ok(e) && Parse(all[i], f).Err?
    ensures ReadLines(d, all, f) == Err(Parse(all[i], f).error)
  {
    ReadConcat(d, all[..i], [all[i]] + all[i + 1..], f);
    ReadOne(e, all[i], all[i + 1..], f);
    assert all == all[..i] + ([all[i]] + all[i + 1..]);
  }

  lemma OneMore(before: seq<string>, all: seq<string>, i: nat)
    requires i < |all|
    ensures before + all[..i] + [all[i]] == before + all[..i + 1]
  {
    assert all[..i + 1] == all[..i] + [all[i]];
    Assoc(before, all[..i], [all[i]]);
  }

  lemma ReadSoFarNext(d: Dict, before: seq<string>, all: seq<string>, i: nat, e: Dict, lines: seq<string>, f: Flags)
    requires ReadSoFar(d, before, all, i, e, lines, f) && i < |all| && Parse(all[i], f).Ok?
    ensures ReadSoFar(d, before, all, i + 1, Noted(e, Parse(all[i], f).value), lines + [all[i]], f)
  {
    ReadNext(d, all, i, e, f);
    OneMore(before, all, i);
  }

  /** Line n cannot be read: it is the last of the lines kept, and only the keys before it are noted. */
  ghost predicate FailedAt(d: Dict, before: seq<string>, all: seq<string>, n: nat, err: Shlex.Error, e: Dict,
                           lines: seq<string>, f: Flags) {
    && n < |all| && Parse(all[n], f) == Err(err)
    && lines == before + all[..n + 1] && ReadLines(d, all[..n], f) == Ok(e)
  }

  ghost predicate Failed(d: Dict, before: seq<string>, all: seq<string>, err: Shlex.Error, e: Dict, lines: seq<string>,
                         f: Flags) {
    exists n: nat :: FailedAt(d, before, all, n, err, e, lines, f)
  }

  lemma ReadSoFarFails(d: Dict, before: seq<string>, all: seq<string>, i: nat, e: Dict, lines: seq<string>, f: Flags)
    requires ReadSoFar(d, before, all, i, e, lines, f) && i < |all| && Parse(all[i], f).Err?
    ensures Failed(d, before, all, Parse(all[i], f).error, e, lines + [all[i]], f)
    ensures ReadLines(d, all, f) == Err(Parse(all[i], f).error)
  {
    ReadFails(d, all, i, e, f);
    OneMore(before, all, i);
    assert FailedAt(d, before, all, i, Parse(all[i], f).error, e, lines + [all[i]], f);
  }

  class SimpleConfigFile {
    const flags: Flags
    var lines: seq<string>
    var info: Dict

    constructor (flags: Flags)
      ensures this.flags == flags && lines == [] && info == EMPTY
    {
      this.flags := flags;
      lines, info := [], EMPTY;
    }

    method Reset()
      modifies this
      ensures lines == [] && info == EMPTY
    {
      lines, info := [], EMPTY;
    }

    /** The part of read for one line. */
    method ReadLine(line: string) returns (r: Result<Parsed, Shlex.Error>)
      modifies this
      ensures r == Parse(line, flags) && lines == old(lines) + [line]
      ensures info == if r.Ok? then Noted(old(info), r.value) else old(info)
    {
      lines := lines + [line];
      r := Parse(line, flags);
      if r.Err? {
        return;
      }
      if r.value.Pair? && r.value.key != "" {
        info := Put(info, r.value.key, r.value.value);
      }
    }

    /** read: a line that cannot be unquoted raises, with the lines up to it kept. */
    method Read(content: string) returns (r: Result<(), Shlex.Error>)
      modifies this
      ensures ReadLines(old(info), FileLines(content), flags).Ok? ==>
                r == Ok(()) && ReadLines(old(info), FileLines(content), flags) == Ok(info) &&
                  lines == old(lines) + FileLines(content)
      ensures ReadLines(old(info), FileLines(content), flags).Err? ==>
                r.Err? && Failed(old(info), old(lines), FileLines(content), r.error, info, lines, flags)
    {
      r := ReadAll(FileLines(content));
    }

    method ReadAll(all: seq<string>) returns (r: Result<(), Shlex.Error>)
      modifies this
      ensures ReadLines(old(info), all, flags).Ok? ==>
                r == Ok(()) && ReadLines(old(info), all, flags) == Ok(info) && lines == old(lines) + all
      ensures ReadLines(old(info), all, flags).Err? ==>
                r.Err? && Failed(old(info), old(lines), all, r.error, info, lines, flags)
    {
      ghost var d, before := info, lines;
      var i := 0;
      while i < |all|
        invariant 0 <= i <= |all|
        invariant ReadSoFar(d, before, all, i, info, lines, flags)
      {
        if Parse(all[i], flags).Ok? {
          ReadSoFarNext(d, before, all, i, info, lines, flags);
        } else {
          ReadSoFarFails(d, before, all, i, info, lines, flags);
        }
        var parsed := ReadLine(all[i]);
        if parsed.Err? {
          return Err(parsed.error);
        }
        i := i + 1;
      }
      assert all[..i] == all;
      r := Ok(());
    }

    method Set(pairs: seq<(string, string)>)
      modifies this`info
      ensures info == SetAll(old(info), pairs, flags.fold)
    {
      var i := 0;
      while i < |pairs|
        invariant 0 <= i <= |pairs|
        invariant SetAll(info, pairs[i..], flags.fold) == SetAll(old(info), pairs, flags.fold)
      {
        info := Put(info, Upper(pairs[i].0, flags.fold), pairs[i].1);
        i := i + 1;
      }
    }

    method Unset(keys: seq<string>)
      modifies this`info
      ensures info == UnsetAll(old(info), keys, flags.fold)
    {
      var i := 0;
      while i < |keys|
        invariant 0 <= i <= |keys|
        invariant UnsetAll(info, keys[i..], flags.fold) == UnsetAll(old(info), keys, flags.fold)
      {
        var key := Upper(keys[i], flags.fold);
        if key in info.values {
          info := Delete(info, key);
        }
        i := i + 1;
      }
    }

    method Get(key: string) returns (value: string)
      ensures value == ValueOf(info, key, flags.fold)
    {
      var upper := Upper(key, flags.fold);
      value := if upper in info.values then info.values[upper] else "";
    }

    /** The first part of __str__: the lines as they are now, and the keys they have. */
    method PrintLines() returns (r: Result<string, Shlex.Error>, oldKeys: seq<string>)
      ensures r.Ok? <==> Readable(lines, flags)
      ensures r.Ok? ==> PrintedSoFar(lines, r.value, oldKeys, info, flags)
    {
      oldKeys := [];
      var s := "";
      var i := 0;
      while i < |lines|
        invariant 0 <= i <= |lines|
        invariant PrintedSoFar(lines[..i], s, oldKeys, info, flags)
      {
        var line := lines[i];
        assert line in lines;
        var parsed := Parse(line, flags);
        if parsed.Err? {
          return Err(parsed.error), oldKeys;
        }
        PrintLine(lines, i, s, oldKeys, info, flags);
        match parsed.value {
          case Other(_) =>
            s := s + line;
          case Pair(key, _, comment) =>
            if key in info.values {
              oldKeys := oldKeys + [key];
              s := s + KeyRow(key, info.values[key], comment, flags);
            }
        }
        i := i + 1;
      }
      assert lines[..i] == lines;
      r := Ok(s);
    }

    /** The second part: a row for every key without a line. */
    method PrintNewKeys(oldKeys: seq<string>) returns (s: string)
      requires Valid(info)
      ensures s == Concat(NewRows(info.keys, oldKeys, info, flags))
    {
      s := "";
      var i := 0;
      while i < |info.keys|
        invariant 0 <= i <= |info.keys|
        invariant s == Concat(NewRows(info.keys[..i], oldKeys, info, flags))
      {
        var key := info.keys[i];
        AddNext(info, i, oldKeys, flags);
        if key !in oldKeys {
          s := s + KeyRow(key, info.values[key], "", flags);
        }
        i := i + 1;
      }
      assert info.keys[..i] == info.keys;
    }

    /** __str__: the lines as they are now, then the keys without a line. */
    method Str() returns (r: Result<string, Shlex.Error>)
      requires Valid(info)
      ensures r.Ok? <==> Readable(lines, flags)
      ensures r.Ok? ==> r.value == Text(lines, info, flags)
    {
      var printed, oldKeys := PrintLines();
      if printed.Err? {
        return printed;
      }
      var added := PrintNewKeys(oldKeys);
      ConcatBoth(OldRows(lines, info, flags), NewRows(info.keys, oldKeys, info, flags));
      r := Ok(printed.value + added);
    }
  }

  // ---------------------------------------------------------------- edits

  datatype Edit = Set(pairs: seq<(string, string)>) | Unset(keys: seq<string>)

  function Edited(d: Dict, edits: seq<Edit>, f: Flags): Dict
    decreases edits
  {
    if edits == [] then d
    else
      match edits[0]
      case Set(pairs) => Edited(SetAll(d, pairs, f.fold), edits[1..], f)
      case Unset(keys) => Edited(UnsetAll(d, keys, f.fold), edits[1..], f)
  }

  /** Every pair can be printed. */
  predicate GoodPairs(pairs: seq<(string, string)>, f: Flags) {
    forall i {:trigger pairs[i]} :: 0 <= i < |pairs| ==> PlainEntry(Upper(pairs[i].0, f.fold), pairs[i].1)
  }

  predicate GoodEdits(edits: seq<Edit>, f: Flags) {
    forall i {:trigger edits[i]} :: 0 <= i < |edits| && edits[i].Set? ==> GoodPairs(edits[i].pairs, f)
  }

  lemma PutGood(d: Dict, key: string, value: string, f: Flags)
    requires GoodDict(d, f) && GoodEntry(key, value, f)
    ensures GoodDict(Put(d, key, value), f)
  {
  }

  lemma {:induction false} WithoutKeeps(keys: seq<string>, key: string)
    ensures forall k :: k in Without(keys, key) <==> k in keys && k != key
    ensures |Without(keys, key)| <= |keys|
  {
    if keys != [] {
      WithoutKeeps(keys[1..], key);
      assert keys == [keys[0]] + keys[1..];
    }
  }

  lemma {:induction false} WithoutDistinct(keys: seq<string>, key: string)
    requires forall i, j :: 0 <= i < j < |keys| ==> keys[i] != keys[j]
    ensures var rest := Without(keys, key); forall i, j :: 0 <= i < j < |rest| ==> rest[i] != rest[j]
  {
    if keys != [] {
      WithoutDistinct(keys[1..], key);
      WithoutKeeps(keys[1..], key);
      var tail := Without(keys[1..], key);
      forall j | 0 <= j < |tail| ensures tail[j] != keys[0] {
        assert tail[j] in keys[1..];
      }
    }
  }

  lemma DeleteGood(d: Dict, key: string, f: Flags)
    requires GoodDict(d, f)
    ensures GoodDict(Delete(d, key), f)
  {
    WithoutKeeps(d.keys, key);
    WithoutDistinct(d.keys, key);
    var e := Delete(d, key);
    forall k {:trigger k in e.values} | k in e.values ensures GoodEntry(k, e.values[k], f) {
      assert k in d.values;
    }
  }

  lemma {:induction false} SetAllGood(d: Dict, pairs: seq<(string, string)>, f: Flags)
    requires IsFold(f.fold) && GoodDict(d, f) && GoodPairs(pairs, f)
    ensures GoodDict(SetAll(d, pairs, f.fold), f)
    decreases pairs
  {
    if pairs != [] {
      UpperIsGood(pairs[0].0, pairs[0].1, f);
      PutGood(d, Upper(pairs[0].0, f.fold), pairs[0].1, f);
      forall i {:trigger pairs[1..][i]} | 0 <= i < |pairs[1..]|
        ensures PlainEntry(Upper(pairs[1..][i].0, f.fold), pairs[1..][i].1)
      {
        assert pairs[1..][i] == pairs[i + 1];
      }
      SetAllGood(Put(d, Upper(pairs[0].0, f.fold), pairs[0].1), pairs[1..], f);
    }
  }

  lemma {:induction false} UnsetAllGood(d: Dict, keys: seq<string>, f: Flags)
    requires GoodDict(d, f)
    ensures GoodDict(UnsetAll(d, keys, f.fold), f)
    decreases keys
  {
    if keys != [] {
      DeleteGood(d, Upper(keys[0], f.fold), f);
      UnsetAllGood(Delete(d, Upper(keys[0], f.fold)), keys[1..], f);
    }
  }

  lemma {:induction false} EditedGood(d: Dict, edits: seq<Edit>, f: Flags)
    requires IsFold(f.fold) && GoodDict(d, f) && GoodEdits(edits, f)
    ensures GoodDict(Edited(d, edits, f), f)
    decreases edits
  {
    if edits != [] {
      assert edits[0].Set? ==> GoodPairs(edits[0].pairs, f);
      forall i {:trigger edits[1..][i]} | 0 <= i < |edits[1..]| && edits[1..][i].Set?
        ensures GoodPairs(edits[1..][i].pairs, f)
      {
        assert edits[1..][i] == edits[i + 1];
      }
      match edits[0] {
        case Set(pairs) =>
          SetAllGood(d, pairs, f);
          EditedGood(SetAll(d, pairs, f.fold), edits[1..], f);
        case Unset(keys) =>
          UnsetAllGood(d, keys, f);
          EditedGood(UnsetAll(d, keys, f.fold), edits[1..], f);
      }
    }
  }

  /** A line that can be read, with a key and a value that can be printed, if it has any. */
  predicate GoodSource(line: string, f: Flags) {
    match Parse(line, f)
    case Err(_) => false
    case Ok(Other(_)) => true
    case Ok(Pair(key, value, _)) => key == "" || PlainEntry(key, value)
  }

  ghost predicate GoodContent(content: string, f: Flags) {
    forall line {:trigger line in FileLines(content)} :: line in FileLines(content) ==> GoodSource(line, f)
  }

  lemma {:induction false} ReadGood(d: Dict, lines: seq<string>, f: Flags)
    requires IsFold(f.fold) && GoodDict(d, f)
    requires forall line {:trigger line in lines} :: line in lines ==> GoodSource(line, f)
    ensures ReadLines(d, lines, f).Ok? && GoodDict(ReadLines(d, lines, f).value, f)
    decreases lines
  {
    if lines != [] {
      RestIn(lines);
      assert GoodSource(lines[0], f);
      match Parse(lines[0], f)
      case Ok(Other(_)) => ReadGood(d, lines[1..], f);
      case Ok(Pair(key, value, _)) =>
        if key != "" {
          ParsedIsGood(lines[0], f);
          PutGood(d, key, value, f);
        }
        ReadGood(if key != "" then Put(d, key, value) else d, lines[1..], f);
    }
  }

  /** What was printed of these lines is read as the same keys and values, printing it again gives the same text, the
      lines that are no key lines are there as they were and in order, the key lines that were not deleted keep
      their place and comment, and new keys follow. */
  ghost predicate RoundTrips(lines: seq<string>, d: Dict, f: Flags) {
    && Valid(d) && Readable(lines, f)
    && var text := Text(lines, d, f);
       var rows := FileLines(text);
       var again := ReadLines(EMPTY, rows, f);
    && Readable(rows, f) && again.Ok? && Valid(again.value)
    && again.value.values == d.values
    && Text(rows, again.value, f) == text
    && Surviving(rows, d, f) == Surviving(lines, d, f) + NewMarks(d.keys, OldKeys(lines, d, f))
  }

  /** Some key has no line yet. */
  ghost predicate HasNewKey(lines: seq<string>, d: Dict, f: Flags)
    requires Readable(lines, f)
  {
    exists key :: key in d.keys && key !in OldKeys(lines, d, f)
  }

  predicate KeptUnended(line: string, f: Flags) {
    !EndsLine(line) && Parse(line, f).Ok? && Parse(line, f).value.Other?
  }

  /** The last line has no newline and is no key line, and a new row is put right behind it. */
  ghost predicate Glues(lines: seq<string>, d: Dict, f: Flags)
    requires Readable(lines, f)
  {
    && lines != [] && KeptUnended(lines[|lines| - 1], f)
    && HasNewKey(lines, d, f)
  }

  /** Reading a file, editing it, printing it, and reading what was printed: all is as it should be, exactly if no new
      key is glued to a last line without a newline. */
  lemma EditRoundTrip(content: string, edits: seq<Edit>, f: Flags)
    requires Quotes(f) && IsFold(f.fold) && GoodContent(content, f) && GoodEdits(edits, f)
    ensures ReadLines(EMPTY, FileLines(content), f).Ok?
    ensures var lines := FileLines(content);
            var d := Edited(ReadLines(EMPTY, lines, f).value, edits, f);
            && GoodDict(d, f) && Readable(lines, f)
            && (RoundTrips(lines, d, f) <==> !Glues(lines, d, f))
  {
    var lines := FileLines(content);
    FileLinesShape(content);
    ReadGood(EMPTY, lines, f);
    var d := Edited(ReadLines(EMPTY, lines, f).value, edits, f);
    EditedGood(ReadLines(EMPTY, lines, f).value, edits, f);
    forall line | line in lines ensures Parse(line, f).Ok? {
      assert GoodSource(line, f);
    }
    if Glues(lines, d, f) {
      GluedFails(lines, d, f);
    } else {
      NotGlued(lines, d, f);
      RowsRoundTrip(lines, d, f);
    }
  }

  // ---------------------------------------------------------------- the printed rows as lines

  lemma {:induction false} OldRowsAreLines(lines: seq<string>, d: Dict, f: Flags)
    requires Quotes(f) && GoodDict(d, f) && GoodSources(lines, f) && AllGoodLines(lines)
    ensures AllGoodLines(OldRows(lines, d, f))
  {
    if lines != [] {
      RestIn(lines);
      OldRowsAreLines(lines[1..], d, f);
      ReprintIsLine(lines[0], d, f);
    }
  }

  lemma ReprintIsLine(line: string, d: Dict, f: Flags)
    requires Quotes(f) && GoodDict(d, f) && FileLine(line) && Parse(line, f).Ok?
    requires GoodLine(line) || Parse(line, f).value.Pair?
    ensures AllGoodLines(Reprint(line, d, f))
  {
    match Parse(line, f).value
    case Other(_) =>
    case Pair(key, _, comment) =>
      if key in d.values {
        ParsedComment(line, f);
        RowIsGood(key, d.values[key], comment, f);
      }
  }

  lemma {:induction false} NewRowsAreLines(keys: seq<string>, done: seq<string>, d: Dict, f: Flags)
    requires Quotes(f) && GoodDict(d, f) && forall k :: k in keys ==> k in d.values
    ensures AllGoodLines(NewRows(keys, done, d, f))
  {
    if keys != [] {
      NewRowsAreLines(keys[1..], done, d, f);
      if keys[0] !in done {
        RowIsGood(keys[0], d.values[keys[0]], "", f);
        LinesBoth([KeyRow(keys[0], d.values[keys[0]], "", f)], NewRows(keys[1..], done, d, f));
      } else {
        assert NewRows(keys, done, d, f) == NewRows(keys[1..], done, d, f);
      }
    }
  }

  lemma LinesBoth(x: seq<string>, y: seq<string>)
    requires AllGoodLines(x) && AllGoodLines(y)
    ensures AllGoodLines(x + y)
  {
  }

  lemma UnendedLast(line: string)
    requires FileLine(line)
    ensures if EndsLine(line) then GoodLine(line) else Unended(line)
  {
    if !EndsLine(line) {
      forall i {:trigger line[i]} | 0 <= i < |line| ensures line[i] != '\n' && line[i] != '\r' {
        if i < |line| - 1 {
          assert line[..|line| - 1][i] == line[i];
        }
      }
    }
  }

  /** Where nothing is glued, the printed rows are the lines of the text they make. */
  lemma NotGlued(lines: seq<string>, d: Dict, f: Flags)
    requires Quotes(f) && GoodDict(d, f) && GoodSources(lines, f) && !Glues(lines, d, f)
    requires lines != [] ==> AllGoodLines(lines[..|lines| - 1])
    ensures FileLines(Concat(Rows(lines, d, f))) == Rows(lines, d, f)
  {
    if lines != [] && KeptUnended(lines[|lines| - 1], f) {
      UnendedKept(lines, d, f);
    } else {
      AllEnded(lines, d, f);
    }
  }

  /** Every line that is printed ends with a newline. */
  lemma AllEnded(lines: seq<string>, d: Dict, f: Flags)
    requires Quotes(f) && GoodDict(d, f) && GoodSources(lines, f)
    requires lines != [] ==> AllGoodLines(lines[..|lines| - 1]) && !KeptUnended(lines[|lines| - 1], f)
    ensures FileLines(Concat(Rows(lines, d, f))) == Rows(lines, d, f)
  {
    var done := OldKeys(lines, d, f);
    NewRowsAreLines(d.keys, done, d, f);
    if lines != [] {
      var init, last := lines[..|lines| - 1], lines[|lines| - 1];
      LastPrinted(lines, d, f);
      OldRowsAreLines(init, d, f);
      UnendedLast(last);
      ReprintIsLine(last, d, f);
      LinesBoth(OldRows(init, d, f), Reprint(last, d, f));
    }
    LinesBoth(OldRows(lines, d, f), NewRows(d.keys, done, d, f));
    FileLinesOfConcat(Rows(lines, d, f));
  }

  lemma LastPrinted(lines: seq<string>, d: Dict, f: Flags)
    requires GoodSources(lines, f) && lines != []
    ensures var init, last := lines[..|lines| - 1], lines[|lines| - 1];
            && GoodSources(init, f) && Parse(last, f).Ok? && FileLine(last)
            && OldRows(lines, d, f) == OldRows(init, d, f) + Reprint(last, d, f)
            && OldKeys(lines, d, f) == OldKeys(init, d, f) + KeyOf(last, d, f)
  {
    var init, last := lines[..|lines| - 1], lines[|lines| - 1];
    assert lines == init + [last];
    InitSources(lines, f);
    LinesConcat(init, [last], d, f);
    OneRow(last, d, f);
  }

  /** A last line without a newline is printed last. */
  lemma UnendedKept(lines: seq<string>, d: Dict, f: Flags)
    requires Quotes(f) && GoodDict(d, f) && GoodSources(lines, f) && !HasNewKey(lines, d, f)
    requires lines != [] && AllGoodLines(lines[..|lines| - 1]) && KeptUnended(lines[|lines| - 1], f)
    ensures FileLines(Concat(Rows(lines, d, f))) == Rows(lines, d, f)
  {
    var init, last := lines[..|lines| - 1], lines[|lines| - 1];
    LastPrinted(lines, d, f);
    NoNewRows(d.keys, OldKeys(lines, d, f), d, f);
    assert Rows(lines, d, f) == OldRows(init, d, f) + [last];
    OldRowsAreLines(init, d, f);
    UnendedLast(last);
    FileLinesOfUnended(OldRows(init, d, f), last);
  }

  // ---------------------------------------------------------------- a glued row

  lemma GlueText(before: seq<string>, last: string, row: string, after: seq<string>)
    ensures Concat((before + [last]) + ([row] + after)) == Concat(before + ([last + row] + after))
  {
    ConcatBoth(before + [last], [row] + after);
    ConcatBoth(before, [last]);
    ConcatBoth([row], after);
    ConcatBoth(before, [last + row] + after);
    ConcatBoth([last + row], after);
    ConcatOne(last);
    ConcatOne(row);
    ConcatOne(last + row);
    Assoc(Concat(before), last, row + Concat(after));
    Assoc(last, row, Concat(after));
  }

  /** A row put right behind a last line without a newline makes one line with it. */
  lemma GlueAsLines(before: seq<string>, last: string, row: string, after: seq<string>)
    requires AllGoodLines(before) && Unended(last) && GoodLine(row) && AllGoodLines(after)
    ensures FileLines(Concat((before + [last]) + ([row] + after))) == before + ([last + row] + after)
  {
    GlueText(before, last, row, after);
    var glued := last + row;
    assert glued[..|glued| - 1] == last + row[..|row| - 1];
    NoNewlineConcat(last, row[..|row| - 1]);
    assert AllGoodLines([glued]);
    LinesBoth([glued], after);
    LinesBoth(before, [glued] + after);
    FileLinesOfConcat(before + ([glued] + after));
  }

  lemma {:induction false} KeyRead(e: Dict, lines: seq<string>, key: string, f: Flags) returns (line: string)
    requires ReadLines(e, lines, f).Ok? && key in ReadLines(e, lines, f).value.values && key !in e.values
    ensures line in lines && Parse(line, f).Ok? && Parse(line, f).value.Pair? && Parse(line, f).value.key == key
    decreases lines
  {
    var e' := Noted(e, Parse(lines[0], f).value);
    if key in e'.values {
      line := lines[0];
    } else {
      line := KeyRead(e', lines[1..], key, f);
    }
  }

  lemma {:induction false} KeyHasLine(lines: seq<string>, line: string, d: Dict, f: Flags)
    requires AllSettled(lines, d, f) && Readable(lines, f) && line in lines && Parse(line, f).value.Pair?
    ensures Parse(line, f).value.key in OldKeys(lines, d, f)
  {
    RestIn(lines);
    assert Settled(line, d, f);
    if line != lines[0] {
      KeyHasLine(lines[1..], line, d, f);
    }
  }

  /** The rows around the glued one, and the new key whose row was glued. */
  datatype Glue = Glue(before: seq<string>, last: string, key: string, after: seq<string>)

  function GlueRow(g: Glue, d: Dict, f: Flags): string
    requires g.key in d.values
  {
    g.last + KeyRow(g.key, d.values[g.key], "", f)
  }

  ghost predicate IsGlue(g: Glue, d: Dict, f: Flags) {
    && GoodDict(d, f) && g.key in d.values && FileLine(g.last) && KeptUnended(g.last, f)
    && AllSettled(g.before, d, f) && Readable(g.before, f) && AllSettled(g.after, d, f) && Readable(g.after, f)
    && g.key !in OldKeys(g.before, d, f) && g.key !in OldKeys(g.after, d, f)
    && forall k :: k in d.values ==> k in OldKeys(g.before, d, f) || k == g.key || k in OldKeys(g.after, d, f)
  }

  /** The key is read again only if the glued row is read as a row of it. */
  lemma GlueIsRead(g: Glue, d: Dict, f: Flags)
    requires IsGlue(g, d, f)
    requires ReadLines(EMPTY, g.before + ([GlueRow(g, d, f)] + g.after), f).Ok?
    requires g.key in ReadLines(EMPTY, g.before + ([GlueRow(g, d, f)] + g.after), f).value.values
    ensures var row := GlueRow(g, d, f);
            Parse(row, f).Ok? && Parse(row, f).value.Pair? && Parse(row, f).value.key == g.key
  {
    var line := KeyRead(EMPTY, g.before + ([GlueRow(g, d, f)] + g.after), g.key, f);
    if line in g.before {
      KeyHasLine(g.before, line, d, f);
    } else if line in g.after {
      KeyHasLine(g.after, line, d, f);
    }
  }

  /** Printed again, the glued row would have to be a row of the key. */
  lemma GlueIsPrinted(g: Glue, d: Dict, e: Dict, f: Flags)
    requires IsGlue(g, d, f) && Valid(e) && e.values == d.values
    requires Parse(GlueRow(g, d, f), f).Ok? && Parse(GlueRow(g, d, f), f).value.Pair?
    requires Parse(GlueRow(g, d, f), f).value.key == g.key
    ensures var row := GlueRow(g, d, f);
            var rows := g.before + ([row] + g.after);
            && Readable(rows, f)
            && Rows(rows, e, f) ==
               g.before + ([KeyRow(g.key, d.values[g.key], Parse(row, f).value.comment, f)] + g.after)
  {
    var row := GlueRow(g, d, f);
    var rows := g.before + ([row] + g.after);
    OneRow(row, e, f);
    LinesConcat([row], g.after, e, f);
    LinesConcat(g.before, [row] + g.after, e, f);
    OldRowsOfSettled(g.before, d, e, f);
    OldRowsOfSettled(g.after, d, e, f);
    forall k | k in e.keys ensures k in e.values && k in OldKeys(rows, e, f) {
      assert k in d.values;
    }
    NoNewRows(e.keys, OldKeys(rows, e, f), e, f);
  }

  lemma SameMiddle(before: seq<string>, x: string, y: string, after: seq<string>)
    requires Concat(before + ([x] + after)) == Concat(before + ([y] + after))
    ensures x == y
  {
    ConcatBoth(before, [x] + after);
    ConcatBoth(before, [y] + after);
    ConcatBoth([x], after);
    ConcatBoth([y], after);
    ConcatOne(x);
    ConcatOne(y);
    var a, c := Concat(before), Concat(after);
    var s := a + (x + c);
    assert s == a + (y + c);
    assert |x| == |y|;
    assert x == s[|a|..|a| + |x|] == y;
  }

  /** A line that begins with a key and an equals sign is a key line. */
  lemma BeginsWithKey(key: string, rest: string, f: Flags)
    requires PlainKey(key) && Parse((key + ['=']) + rest, f).Ok?
    ensures Parse((key + ['=']) + rest, f).value.Pair?
  {
    var front := key + ['='];
    assert front[0] == key[0];
    var kept := Whitespace.StripBehind(front, rest);
    KeyIsNeutral(key);
    FindInRow(key, kept);
    var body := CutComment(front + rest).0;
    var value := match FindFrom(kept, None) case Some(i) => kept[..i] case None => kept;
    assert body == front + value;
    PartitionKey(key, value);
    Whitespace.StripTight(key);
  }

  /** A row of a key is not that key's row behind a line that is no key line. */
  lemma NoRowBehind(last: string, key: string, value: string, comment: string, f: Flags)
    requires last != "" && Parse(last, f).Ok? && Parse(last, f).value.Other? && PlainKey(key)
    ensures KeyRow(key, value, comment, f) != last + KeyRow(key, value, "", f)
  {
    var x, y := KeyRow(key, value, comment, f), last + KeyRow(key, value, "", f);
    var n := |key|;
    KeyIsNeutral(key);
    assert x[..n + 1] == key + ['='];
    if x == y && |last| > n {
      assert last[..n + 1] == y[..n + 1];
      assert last == (key + ['=']) + last[n + 1..];
      BeginsWithKey(key, last[n + 1..], f);
    }
    assert |last| <= n ==> y[n] == key[n - |last|] && IsNeutral(key[n - |last|]);
  }

  lemma GlueFails(g: Glue, d: Dict, f: Flags)
    requires IsGlue(g, d, f)
    ensures var rows := g.before + ([GlueRow(g, d, f)] + g.after);
            var again := ReadLines(EMPTY, rows, f);
            !(Readable(rows, f) && again.Ok? && Valid(again.value) && again.value.values == d.values &&
              Text(rows, again.value, f) == Concat(rows))
  {
    var row := GlueRow(g, d, f);
    var rows := g.before + ([row] + g.after);
    var again := ReadLines(EMPTY, rows, f);
    if Readable(rows, f) && again.Ok? && Valid(again.value) && again.value.values == d.values &&
       Text(rows, again.value, f) == Concat(rows)
    {
      GlueIsRead(g, d, f);
      GlueIsPrinted(g, d, again.value, f);
      var comment := Parse(row, f).value.comment;
      SameMiddle(g.before, KeyRow(g.key, d.values[g.key], comment, f), row, g.after);
      assert GoodEntry(g.key, d.values[g.key], f);
      NoRowBehind(g.last, g.key, d.values[g.key], comment, f);
    }
  }

  /** The first key without a line, and the rows of the others. */
  lemma {:induction false} FirstNewKey(keys: seq<string>, done: seq<string>, d: Dict, f: Flags) returns (i: nat)
    requires (forall k :: k in keys ==> k in d.values) && exists k :: k in keys && k !in done
    ensures i < |keys| && keys[i] !in done && forall k :: k in keys[..i] ==> k in done
    ensures NewRows(keys, done, d, f) ==
            [KeyRow(keys[i], d.values[keys[i]], "", f)] + NewRows(keys[i + 1..], done, d, f)
  {
    if keys[0] in done {
      i := FirstNewKey(keys[1..], done, d, f);
      assert keys[1..][i + 1..] == keys[i + 2..] && keys[..i + 1] == [keys[0]] + keys[1..][..i];
      i := i + 1;
    } else {
      i := 0;
    }
  }

  lemma {:induction false} NewKeysOnly(keys: seq<string>, done: seq<string>)
    ensures forall k :: k in NewKeys(keys, done) ==> k in keys
  {
    if keys != [] {
      NewKeysOnly(keys[1..], done);
    }
  }

  /** The rows after the glued one. */
  lemma GlueAfter(keys: seq<string>, done: seq<string>, d: Dict, f: Flags)
    requires Quotes(f) && GoodDict(d, f) && forall k :: k in keys ==> k in d.values
    ensures var after := NewRows(keys, done, d, f);
            AllSettled(after, d, f) && Readable(after, f) && AllGoodLines(after) &&
            OldKeys(after, d, f) == NewKeys(keys, done)
  {
    NewRowsSettled(keys, done, d, f);
    SettledReadable(NewRows(keys, done, d, f), d, f);
    NewRowsMarks(keys, done, d, f);
    NewRowsAreLines(keys, done, d, f);
  }

  lemma KeysAfter(d: Dict, i: nat, done: seq<string>)
    requires Valid(d) && i < |d.keys| && forall k :: k in d.keys[..i] ==> k in done
    ensures d.keys[i] !in NewKeys(d.keys[i + 1..], done)
    ensures forall k :: k in d.values ==> k in done || k == d.keys[i] || k in NewKeys(d.keys[i + 1..], done)
  {
    var rest := d.keys[i + 1..];
    NewKeysOnly(rest, done);
    EveryKeyHasARow(rest, done);
    assert d.keys == d.keys[..i] + ([d.keys[i]] + rest);
  }

  /** A file in which a row is glued is printed as the rows of a glue. */
  lemma GlueOf(lines: seq<string>, d: Dict, f: Flags) returns (g: Glue)
    requires Quotes(f) && GoodDict(d, f) && GoodSources(lines, f) && Glues(lines, d, f)
    requires AllGoodLines(lines[..|lines| - 1])
    ensures IsGlue(g, d, f)
    ensures AllGoodLines(g.before) && AllGoodLines(g.after)
    ensures Rows(lines, d, f) == (g.before + [g.last]) + ([KeyRow(g.key, d.values[g.key], "", f)] + g.after)
  {
    var init, last := lines[..|lines| - 1], lines[|lines| - 1];
    var done := OldKeys(lines, d, f);
    LastPrinted(lines, d, f);
    assert done == OldKeys(init, d, f);
    var i := FirstNewKey(d.keys, done, d, f);
    g := Glue(OldRows(init, d, f), last, d.keys[i], NewRows(d.keys[i + 1..], done, d, f));
    OldRowsSettled(init, d, f);
    SettledReadable(g.before, d, f);
    OldRowsAreLines(init, d, f);
    GlueAfter(d.keys[i + 1..], done, d, f);
    KeysAfter(d, i, done);
  }

  lemma GluedFails(lines: seq<string>, d: Dict, f: Flags)
    requires Quotes(f) && GoodDict(d, f) && GoodSources(lines, f) && Glues(lines, d, f)
    requires AllGoodLines(lines[..|lines| - 1])
    ensures !RoundTrips(lines, d, f)
  {
    var g := GlueOf(lines, d, f);
    var row := KeyRow(g.key, d.values[g.key], "", f);
    UnendedLast(g.last);
    RowIsGood(g.key, d.values[g.key], "", f);
    GlueAsLines(g.before, g.last, row, g.after);
    GlueText(g.before, g.last, row, g.after);
    GlueFails(g, d, f);
  }

  /** A file that is one comment without a newline glues the first key it is given. */
  lemma CommentGlues(key: string, value: string, f: Flags)
    ensures var d := Dict([key], map[key := value]);
            Readable(["#"], f) && Glues(["#"], d, f)
  {
    assert FindComment("#") == Some(0);
    Whitespace.StripTight("#");
    assert CutComment("#") == ("", "#");
    assert Shlex.Unquote("") == Ok("");
    var d := Dict([key], map[key := value]);
    assert ["#"][1..] == [];
    assert OldKeys(["#"], d, f) == [];
    assert key in d.keys && key !in OldKeys(["#"], d, f);
  }

  lemma InitSources(lines: seq<string>, f: Flags)
    requires GoodSources(lines, f) && lines != []
    ensures var init, last := lines[..|lines| - 1], lines[|lines| - 1];
            GoodSources(init, f) && GoodSources([last], f) && Parse(last, f).Ok? && FileLine(last)
  {
    assert lines[|lines| - 1] in lines;
  }

  // ---------------------------------------------------------------- edits, one key at a time

  /** What get gives for a key. */
  function ValueOf(d: Dict, key: string, fold: Fold): string {
    if Upper(key, fold) in d.values then d.values[Upper(key, fold)] else ""
  }

  /** The last value that pairs give a key, whatever its case. */
  function LastValue(pairs: seq<(string, string)>, key: string, fold: Fold): Option<string> {
    if pairs == [] then None
    else if LastValue(pairs[1..], key, fold).Some? then LastValue(pairs[1..], key, fold)
    else if Upper(pairs[0].0, fold) == key then Some(pairs[0].1)
    else None
  }

  lemma {:induction false} SetAllLast(d: Dict, pairs: seq<(string, string)>, key: string, fold: Fold)
    ensures match LastValue(pairs, key, fold)
            case Some(value) => key in SetAll(d, pairs, fold).values && SetAll(d, pairs, fold).values[key] == value
            case None => (key in SetAll(d, pairs, fold).values <==> key in d.values) &&
                         (key in d.values ==> SetAll(d, pairs, fold).values[key] == d.values[key])
    decreases pairs
  {
    if pairs != [] {
      SetAllLast(Put(d, Upper(pairs[0].0, fold), pairs[0].1), pairs[1..], key, fold);
    }
  }

  lemma {:induction false} UnsetAllGone(d: Dict, keys: seq<string>, key: string, fold: Fold)
    ensures key in UnsetAll(d, keys, fold).values <==>
            key in d.values && forall i :: 0 <= i < |keys| ==> Upper(keys[i], fold) != key
    ensures key in UnsetAll(d, keys, fold).values ==> UnsetAll(d, keys, fold).values[key] == d.values[key]
    decreases keys
  {
    if keys != [] {
      UnsetAllGone(Delete(d, Upper(keys[0], fold)), keys[1..], key, fold);
      forall j | 0 <= j < |keys[1..]| ensures keys[1..][j] == keys[j + 1] {
      }
      forall j | 0 < j < |keys| ensures keys[1..][j - 1] == keys[j] {
      }
    }
  }

  /** After set, get gives the last value that was set for the key in any case of letters, and what it gave before for
      all other keys. */
  lemma GetAfterSet(d: Dict, pairs: seq<(string, string)>, key: string, fold: Fold)
    ensures ValueOf(SetAll(d, pairs, fold), key, fold) ==
            match LastValue(pairs, Upper(key, fold), fold)
            case Some(value) => value
            case None => ValueOf(d, key, fold)
  {
    SetAllLast(d, pairs, Upper(key, fold), fold);
  }

  /** After unset, get gives nothing for the keys that were unset, and what it gave before for all others. */
  lemma GetAfterUnset(d: Dict, keys: seq<string>, key: string, fold: Fold)
    ensures ValueOf(UnsetAll(d, keys, fold), key, fold) ==
            if exists i :: 0 <= i < |keys| && Upper(keys[i], fold) == Upper(key, fold) then ""
            else ValueOf(d, key, fold)
  {
    UnsetAllGone(d, keys, Upper(key, fold), fold);
  }

  // ---------------------------------------------------------------- where the round trip fails

  /** A double quote before a # makes the printed row a comment from there on. */
  lemma QuoteBeforeHash(key: string, f: Flags)
    requires Quotes(f) && GoodKey(key, f)
    ensures Shlex.Plain(['"', '#'])
    ensures Parse(KeyRow(key, ['"', '#'], "", f), f) != Ok(Pair(key, ['"', '#'], ""))
  {
    var value := ['"', '#'];
    assert value[1] == '#' && value[..1] == ['"'] && ['"'][1..] == "";
    assert QuoteAfter(value[..1], Some('"')) == None;
    RowRoundTrip(key, value, "", f);
  }

  /** The text of a line before its first '=' outside a comment, if it has one. */
  function RawKey(line: string): Option<string> {
    var (key, found, _) := Partition(CutComment(line).0);
    if found then Some(Whitespace.Strip(key)) else None
  }

  /** The line has a key, and no character of it has an ASCII decomposition. */
  ghost predicate HasNoAscii(line: string, f: Flags) {
    match RawKey(line)
    case Some(key) => key != "" && forall i {:trigger key[i]} :: 0 <= i < |key| ==> f.fold(key[i]) == ""
    case None => false
  }

  lemma UpperAsciiEmpty(s: string)
    ensures UpperAscii(s) == "" <==> s == ""
  {
  }

  lemma {:induction false} UpperEmpty(s: string, fold: Fold)
    ensures Upper(s, fold) == "" <==> forall i {:trigger s[i]} :: 0 <= i < |s| ==> fold(s[i]) == ""
  {
    if s != "" {
      UpperAsciiEmpty(fold(s[0]));
      UpperEmpty(s[1..], fold);
      if Upper(s, fold) == "" {
        forall i {:trigger s[i]} | 0 <= i < |s| ensures fold(s[i]) == "" {
          if i > 0 {
            assert s[1..][i - 1] == s[i];
          }
        }
      }
      if forall i {:trigger s[i]} :: 0 <= i < |s| ==> fold(s[i]) == "" {
        forall i {:trigger s[1..][i]} | 0 <= i < |s[1..]| ensures fold(s[1..][i]) == "" {
          assert s[1..][i] == s[i + 1];
        }
      }
    }
  }

  /** Reading the line notes nothing, and printing does not keep it. */
  predicate FallsThrough(line: string, d: Dict, f: Flags)
    requires Parse(line, f).Ok?
  {
    ReadLines(d, [line], f) == Ok(d) && OldRows([line], d, f) == []
  }

  lemma NotedSame(d: Dict, parsed: Parsed)
    requires Noted(d, parsed) == d && parsed.Pair? && parsed.key != ""
    ensures parsed.key in d.values
  {
    assert parsed.key in Put(d, parsed.key, parsed.value).values;
  }

  /** Exactly which lines get lost: those whose key has no character with an ASCII decomposition are not read as a key,
      and yet not kept when printing, unless an empty key was set; every other line that can be read is one or the
      other. */
  lemma LineLostIff(line: string, d: Dict, f: Flags)
    requires Parse(line, f).Ok?
    ensures FallsThrough(line, d, f) <==> HasNoAscii(line, f) && "" !in d.values
  {
    OneRow(line, d, f);
    var parsed := Parse(line, f).value;
    var (key, found, _) := Partition(CutComment(line).0);
    UpperEmpty(Whitespace.Strip(key), f.fold);
    assert [line][1..] == [];
    assert ReadLines(d, [line], f) == Ok(Noted(d, parsed));
    if FallsThrough(line, d, f) && parsed.Pair? && parsed.key != "" {
      NotedSame(d, parsed);
    }
  }

  /** There is such a line, wherever a character has no ASCII decomposition. */
  lemma LineCanBeLost(c: char, f: Flags)
    requires f.fold(c) == "" && !Whitespace.IsSpace(c) && IsNeutral(c)
    ensures Parse([c, '=', '\n'], f).Ok? && HasNoAscii([c, '=', '\n'], f)
  {
    var body := [c, '='];
    Whitespace.StripOne(body, '\n');
    assert body + ['\n'] == [c, '=', '\n'];
    assert body[1..] == ['='] && ['='][1..] == "";
    assert FindComment(body) == None;
    assert CutComment([c, '=', '\n']) == (body, "");
    assert Partition(['=']) == ("", true, "");
    assert Partition(body) == ([c], true, "") by {
      assert [c] + "" == [c];
    }
    Whitespace.StripTight([c]);
    Whitespace.StripTight("");
    assert Shlex.Unquote("") == Ok("");
  }
}
