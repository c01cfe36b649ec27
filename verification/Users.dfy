/** Checks of user and group names, and the regular expressions that close them. */
module Users {
  import opened Prelude
  import opened Whitespace
  import Text

  // ---------------------------------------------------------------- regular expressions

  /** [a-zA-Z0-9._], [a-zA-Z0-9._-], a dollar sign, whitespace, a comma. */
  datatype Class = Initial | Portable | Dollar | Space | Comma

  predicate IsPortable(c: char) {
    'a' <= c <= 'z' || 'A' <= c <= 'Z' || '0' <= c <= '9' || c == '.' || c == '_' || c == '-'
  }

  predicate In(c: char, cls: Class) {
    match cls
    case Initial => IsPortable(c) && c != '-'
    case Portable => IsPortable(c)
    case Dollar => c == '$'
    case Space => IsSpace(c)
    case Comma => c == ','
  }

  /** UpTo is r{0,n}. */
  datatype Regex = Empty | One(cls: Class) | Cat(first: Regex, second: Regex) | Or(left: Regex, right: Regex)
    | Star(r: Regex) | UpTo(r: Regex, n: nat)

  /** The string is in the language of the expression. */
  ghost predicate Matches(r: Regex, s: string)
    decreases |s|, r
  {
    match r
    case Empty => s == ""
    case One(cls) => |s| == 1 && In(s[0], cls)
    case Cat(a, b) => exists i {:trigger s[..i]} :: 0 <= i <= |s| && Matches(a, s[..i]) && Matches(b, s[i..])
    case Or(a, b) => Matches(a, s) || Matches(b, s)
    case Star(a) => s == "" || exists i {:trigger s[..i]} :: 0 < i <= |s| && Matches(a, s[..i]) && Matches(r, s[i..])
    case UpTo(a, n) =>
      s == "" ||
      (n > 0 && exists i {:trigger s[..i]} :: 0 < i <= |s| && Matches(a, s[..i]) && Matches(UpTo(a, n - 1), s[i..]))
  }

  /** re.match of an expression between ^ and $: $ also matches before a newline at the end. */
  ghost predicate MatchesLine(r: Regex, s: string) {
    Matches(r, s) || (s != "" && s[|s| - 1] == '\n' && Matches(r, s[..|s| - 1]))
  }

  function Optional(r: Regex): Regex {
    Or(r, Empty)
  }

  const NAME := Cat(One(Initial), Cat(UpTo(One(Portable), 30), Optional(Or(One(Portable), One(Dollar)))))

  const SPACES := Star(One(Space))

  const NEXT_NAME := Cat(SPACES, Cat(One(Comma), Cat(SPACES, NAME)))

  const GROUP_LIST := Cat(SPACES, Cat(Optional(Cat(NAME, Star(NEXT_NAME))), SPACES))

  // ---------------------------------------------------------------- the checks

  datatype Problem = StartsWithHyphen | DotName | Numeric | JustDollar | BadCharacter(c: char) | TooLong | Invalid

  datatype ListProblem = BadName(problem: Problem) | BadList

  predicate IsNumeric(s: string) {
    s != "" && forall i {:trigger s[i]} :: 0 <= i < |s| ==> '0' <= s[i] <= '9'
  }

  /** The first character that is not portable. */
  function FirstBad(s: string): Option<char> {
    if s == "" then None else if !IsPortable(s[0]) then Some(s[0]) else FirstBad(s[1..])
  }

  function WithoutDollar(name: string): string {
    if name != "" && name[|name| - 1] == '$' then name[..|name| - 1] else name
  }

  /** is_valid_name up to its last check. */
  function CheckRules(name: string): Option<Problem> {
    if name != "" && name[0] == '-' then Some(StartsWithHyphen)
    else if name == ['.'] || name == ['.', '.'] then Some(DotName)
    else if IsNumeric(name) then Some(Numeric)
    else if name == ['$'] then Some(JustDollar)
    else match FirstBad(WithoutDollar(name))
         case Some(c) => Some(BadCharacter(c))
         case None => if |name| > 32 then Some(TooLong) else None
  }

  /** is_valid_name, and so check_groupname: None if the name is valid. */
  ghost function CheckName(name: string): Option<Problem> {
    if CheckRules(name).Some? then CheckRules(name)
    else if !MatchesLine(NAME, name) then Some(Invalid)
    else None
  }

  /** str.split at commas. */
  function Split(s: string): seq<string> {
    Text.SplitFrom(',', s, "")
  }

  /** The first part that is not a valid name when stripped. */
  ghost function CheckParts(parts: seq<string>): Option<Problem> {
    if parts == [] then None
    else if CheckName(Strip(parts[0])).Some? then CheckName(Strip(parts[0]))
    else CheckParts(parts[1..])
  }

  /** check_grouplist. */
  ghost function CheckGroupList(s: string): Option<ListProblem> {
    if s == "" then None
    else match CheckParts(Split(s))
         case Some(p) => Some(BadName(p))
         case None => if !MatchesLine(GROUP_LIST, s) then Some(BadList) else None
  }

  // ---------------------------------------------------------------- the language of names

  predicate All(s: string, cls: Class) {
    forall i {:trigger s[i]} :: 0 <= i < |s| ==> In(s[i], cls)
  }

  /** An initial character, then portable ones, the last of which may be a dollar sign; at most 32 in all. */
  predicate NameShape(s: string) {
    && 1 <= |s| <= 32 && In(s[0], Initial)
    && (forall i {:trigger s[i]} :: 1 <= i < |s| - 1 ==> IsPortable(s[i]))
    && (|s| > 1 ==> IsPortable(s[|s| - 1]) || s[|s| - 1] == '$')
  }

  lemma AllRest(s: string, cls: Class)
    requires s != ""
    ensures All(s, cls) <==> In(s[0], cls) && All(s[1..], cls)
  {
    if In(s[0], cls) && All(s[1..], cls) {
      forall i {:trigger s[i]} | 0 <= i < |s| ensures In(s[i], cls) {
        if i > 0 {
          assert s[1..][i - 1] == s[i];
        }
      }
    }
  }

  lemma {:induction false} UpToLanguage(cls: Class, n: nat, s: string)
    ensures Matches(UpTo(One(cls), n), s) <==> |s| <= n && All(s, cls)
    decreases |s|
  {
    if s != "" {
      AllRest(s, cls);
      if n > 0 {
        UpToLanguage(cls, n - 1, s[1..]);
        if |s| <= n && All(s, cls) {
          assert |s[..1]| == 1 && s[..1][0] == s[0];
          assert Matches(One(cls), s[..1]);
        }
        if Matches(UpTo(One(cls), n), s) {
          var i :| 0 < i <= |s| && Matches(One(cls), s[..i]) && Matches(UpTo(One(cls), n - 1), s[i..]);
          assert i == 1;
        }
      }
    }
  }

  lemma {:induction false} StarLanguage(cls: Class, s: string)
    ensures Matches(Star(One(cls)), s) <==> All(s, cls)
    decreases |s|
  {
    if s != "" {
      AllRest(s, cls);
      StarLanguage(cls, s[1..]);
      if All(s, cls) {
        assert |s[..1]| == 1 && s[..1][0] == s[0];
        assert Matches(One(cls), s[..1]);
      }
      if Matches(Star(One(cls)), s) {
        var i :| 0 < i <= |s| && Matches(One(cls), s[..i]) && Matches(Star(One(cls)), s[i..]);
        assert i == 1;
      }
    }
  }

  /** A concatenation, without slices. */
  lemma CatBoth(a: Regex, b: Regex, x: string, y: string)
    requires Matches(a, x) && Matches(b, y)
    ensures Matches(Cat(a, b), x + y)
  {
    assert (x + y)[..|x|] == x && (x + y)[|x|..] == y;
  }

  lemma CatParts(a: Regex, b: Regex, s: string) returns (x: string, y: string)
    requires Matches(Cat(a, b), s)
    ensures s == x + y && Matches(a, x) && Matches(b, y)
  {
    var i :| 0 <= i <= |s| && Matches(a, s[..i]) && Matches(b, s[i..]);
    x, y := s[..i], s[i..];
  }

  lemma OptionalParts(r: Regex, s: string)
    requires Matches(Optional(r), s)
    ensures s == "" || Matches(r, s)
  {
    assert Matches(Empty, s) <==> s == "";
  }

  const ENDING := Optional(Or(One(Portable), One(Dollar)))

  lemma EndingLanguage(s: string)
    ensures Matches(ENDING, s) <==> s == "" || (|s| == 1 && (IsPortable(s[0]) || s[0] == '$'))
  {
    assert Matches(Or(One(Portable), One(Dollar)), s) <==> Matches(One(Portable), s) || Matches(One(Dollar), s);
    assert Matches(ENDING, s) <==> Matches(Or(One(Portable), One(Dollar)), s) || Matches(Empty, s);
  }

  predicate TailShape(s: string) {
    && |s| <= 31
    && (forall i {:trigger s[i]} :: 0 <= i < |s| - 1 ==> IsPortable(s[i]))
    && (s != "" ==> IsPortable(s[|s| - 1]) || s[|s| - 1] == '$')
  }

  lemma TailMatches(s: string)
    requires TailShape(s)
    ensures Matches(Cat(UpTo(One(Portable), 30), ENDING), s)
  {
    var k := if s == "" then 0 else |s| - 1;
    assert s[..k] + s[k..] == s;
    UpToLanguage(Portable, 30, s[..k]);
    EndingLanguage(s[k..]);
    CatBoth(UpTo(One(Portable), 30), ENDING, s[..k], s[k..]);
  }

  lemma TailLanguage(s: string)
    ensures Matches(Cat(UpTo(One(Portable), 30), ENDING), s) <==> TailShape(s)
  {
    if Matches(Cat(UpTo(One(Portable), 30), ENDING), s) {
      var i :| 0 <= i <= |s| && Matches(UpTo(One(Portable), 30), s[..i]) && Matches(ENDING, s[i..]);
      UpToLanguage(Portable, 30, s[..i]);
      EndingLanguage(s[i..]);
      forall j {:trigger s[j]} | 0 <= j < i ensures IsPortable(s[j]) {
        assert s[..i][j] == s[j];
      }
    }
    if TailShape(s) {
      TailMatches(s);
    }
  }

  lemma NameTail(s: string)
    requires s != ""
    ensures NameShape(s) <==> In(s[0], Initial) && TailShape(s[1..])
  {
    var tail := s[1..];
    if In(s[0], Initial) && TailShape(tail) {
      forall i {:trigger s[i]} | 1 <= i < |s| - 1 ensures IsPortable(s[i]) {
        assert tail[i - 1] == s[i];
      }
    }
  }

  /** The regular expression of names accepts exactly the names of this shape. */
  lemma NameLanguage(s: string)
    ensures Matches(NAME, s) <==> NameShape(s)
  {
    if s != "" {
      NameTail(s);
      TailLanguage(s[1..]);
      if Matches(NAME, s) {
        var i :| 0 <= i <= |s| && Matches(One(Initial), s[..i]) &&
          Matches(Cat(UpTo(One(Portable), 30), ENDING), s[i..]);
        assert i == 1;
      }
      if NameShape(s) {
        assert s[..1] + s[1..] == s;
        CatBoth(One(Initial), Cat(UpTo(One(Portable), 30), ENDING), s[..1], s[1..]);
      }
    } else {
      assert !Matches(One(Initial), s[..0]);
    }
  }

  // ---------------------------------------------------------------- valid names

  lemma {:induction false} FirstBadNone(s: string)
    ensures FirstBad(s) == None <==> All(s, Portable)
  {
    if s != "" {
      AllRest(s, Portable);
      FirstBadNone(s[1..]);
    }
  }

  /** The rules of names: 1 to 32 portable characters, the last of which may be a dollar sign, no hyphen at the
      start, not fully numeric, and none of ".", ".." and "$". */
  predicate ValidName(name: string) {
    && 1 <= |name| <= 32
    && name[0] != '-'
    && name != ['.'] && name != ['.', '.'] && name != ['$']
    && (exists i {:trigger name[i]} :: 0 <= i < |name| && !('0' <= name[i] <= '9'))
    && forall i {:trigger name[i]} :: 0 <= i < |name| ==> IsPortable(name[i]) || (i == |name| - 1 && name[i] == '$')
  }

  lemma RulesAreValid(name: string)
    requires name != ""
    ensures CheckRules(name) == None <==> ValidName(name)
  {
    var w := WithoutDollar(name);
    FirstBadNone(w);
    assert IsNumeric(name) <==> !exists i {:trigger name[i]} :: 0 <= i < |name| && !('0' <= name[i] <= '9');
    if ValidName(name) {
      forall i {:trigger w[i]} | 0 <= i < |w| ensures IsPortable(w[i]) {
        assert w[i] == name[i];
      }
      assert All(w, Portable);
    }
    if All(w, Portable) {
      forall i {:trigger name[i]} | 0 <= i < |name| ensures IsPortable(name[i]) || (i == |name| - 1 && name[i] == '$') {
        assert i < |w| ==> In(w[i], Portable);
      }
    }
  }

  lemma ValidHasShape(name: string)
    requires ValidName(name)
    ensures NameShape(name)
  {
    assert name[0] == '$' ==> name == ['$'];
    forall i {:trigger name[i]} | 1 <= i < |name| - 1 ensures IsPortable(name[i]) {
    }
  }

  /** For nonempty names, the closing regular expression never changes the answer. */
  lemma NameRegexImplied(name: string)
    requires name != ""
    ensures CheckName(name) == CheckRules(name)
  {
    RulesAreValid(name);
    if ValidName(name) {
      ValidHasShape(name);
      NameLanguage(name);
    }
  }

  /** The names accepted are exactly the valid ones; the empty name is rejected by the regular expression alone. */
  lemma NameAccepted(name: string)
    ensures CheckName(name) == None <==> ValidName(name)
    ensures CheckName("") == Some(Invalid)
  {
    NameLanguage("");
    assert FirstBad("") == None;
    if name != "" {
      NameRegexImplied(name);
      RulesAreValid(name);
    }
  }

  /** Each message tells the truth about the name; the one about a character names the first that is not portable. */
  lemma ProblemIsReal(name: string)
    ensures match CheckName(name)
            case None => true
            case Some(StartsWithHyphen) => name != "" && name[0] == '-'
            case Some(DotName) => name == ['.'] || name == ['.', '.']
            case Some(Numeric) => forall i {:trigger name[i]} :: 0 <= i < |name| ==> '0' <= name[i] <= '9'
            case Some(JustDollar) => name == ['$']
            case Some(BadCharacter(c)) =>
              exists i {:trigger name[i]} ::
                0 <= i < |name| && name[i] == c && !IsPortable(c) && All(name[..i], Portable)
            case Some(TooLong) => |name| > 32
            case Some(Invalid) => name == ""
  {
    NameAccepted(name);
    if name != "" {
      NameRegexImplied(name);
      var w := WithoutDollar(name);
      if FirstBad(w).Some? {
        var i := FirstBadAt(w);
        assert w[..i] == name[..i] && name[i] == w[i];
      }
    }
  }

  lemma {:induction false} FirstBadAt(s: string) returns (i: nat)
    requires FirstBad(s).Some?
    ensures i < |s| && s[i] == FirstBad(s).value && !IsPortable(s[i]) && All(s[..i], Portable)
  {
    if !IsPortable(s[0]) {
      i := 0;
    } else {
      i := FirstBadAt(s[1..]);
      assert s[..i + 1][1..] == s[1..][..i];
      AllRest(s[..i + 1], Portable);
      i := i + 1;
    }
  }

  // ---------------------------------------------------------------- group lists

  predicate NoComma(s: string) {
    forall i {:trigger s[i]} :: 0 <= i < |s| ==> s[i] != ','
  }

  /** A part is whitespace around a name of the right shape. */
  ghost predicate NamePart(part: string) {
    exists a, n, b {:trigger a + (n + b)} :: part == a + (n + b) && All(a, Space) && NameShape(n) && All(b, Space)
  }

  /** Parts joined by commas. */
  function Commas(parts: seq<string>): string {
    if parts == [] then "" else if |parts| == 1 then parts[0] else parts[0] + ([','] + Commas(parts[1..]))
  }

  lemma {:induction false} SplitCommas(s: string, part: string)
    ensures Text.SplitFrom(',', s, part) != [] && Commas(Text.SplitFrom(',', s, part)) == part + s
    decreases |s|
  {
    if s == "" {
      assert part + s == part;
    } else if s[0] == ',' {
      var rest := Text.SplitFrom(',', s[1..], "");
      SplitCommas(s[1..], "");
      assert ([part] + rest)[1..] == rest;
      assert [','] + ("" + s[1..]) == s;
    } else {
      SplitCommas(s[1..], part + [s[0]]);
      assert part + [s[0]] + s[1..] == part + s;
    }
  }

  lemma {:induction false} StripLeftSpaces(s: string) returns (k: nat)
    ensures k <= |s| && StripLeft(s) == s[k..] && All(s[..k], Space)
  {
    if s != "" && IsSpace(s[0]) {
      k := StripLeftSpaces(s[1..]);
      assert s[..k + 1][1..] == s[1..][..k];
      AllRest(s[..k + 1], Space);
      assert s[1..][k..] == s[k + 1..];
      k := k + 1;
    } else {
      k := 0;
    }
  }

  lemma AllSnoc(s: string, cls: Class)
    requires s != ""
    ensures All(s, cls) <==> In(s[|s| - 1], cls) && All(s[..|s| - 1], cls)
  {
    var front := s[..|s| - 1];
    if In(s[|s| - 1], cls) && All(front, cls) {
      forall i {:trigger s[i]} | 0 <= i < |s| ensures In(s[i], cls) {
        if i < |s| - 1 {
          assert front[i] == s[i];
        }
      }
    }
  }

  lemma {:induction false} StripRightSpaces(s: string) returns (k: nat)
    ensures k <= |s| && StripRight(s) == s[..k] && All(s[k..], Space)
  {
    if s != "" && IsSpace(s[|s| - 1]) {
      k := StripRightSpaces(s[..|s| - 1]);
      assert s[k..][..|s| - k - 1] == s[..|s| - 1][k..];
      AllSnoc(s[k..], Space);
      assert s[..|s| - 1][..k] == s[..k];
    } else {
      k := |s|;
    }
  }

  /** A part whose stripped text is a name of the right shape. */
  lemma StrippedPart(part: string)
    requires NameShape(Strip(part))
    ensures NamePart(part)
  {
    var i := StripLeftSpaces(part);
    var left := part[i..];
    var k := StripRightSpaces(left);
    assert part[..i] + (left[..k] + left[k..]) == part;
  }

  lemma SpacesMatch(s: string)
    ensures Matches(SPACES, s) <==> All(s, Space)
  {
    StarLanguage(Space, s);
  }

  lemma CommaMatches()
    ensures Matches(One(Comma), [','])
  {
  }

  const REST := Cat(Star(NEXT_NAME), SPACES)

  lemma NextNameMatches(before: string, a: string, n: string)
    requires All(before, Space) && All(a, Space) && NameShape(n)
    ensures Matches(NEXT_NAME, before + ([','] + (a + n)))
  {
    SpacesMatch(before);
    SpacesMatch(a);
    NameLanguage(n);
    CommaMatches();
    CatBoth(SPACES, NAME, a, n);
    CatBoth(One(Comma), Cat(SPACES, NAME), [','], a + n);
    CatBoth(SPACES, Cat(One(Comma), Cat(SPACES, NAME)), before, [','] + (a + n));
  }

  lemma StarMore(x: string, y: string)
    requires x != "" && Matches(NEXT_NAME, x) && Matches(Star(NEXT_NAME), y)
    ensures Matches(Star(NEXT_NAME), x + y)
  {
    assert (x + y)[..|x|] == x && (x + y)[|x|..] == y;
  }

  lemma RestMore(x: string, y: string)
    requires x != "" && Matches(NEXT_NAME, x) && Matches(REST, y)
    ensures Matches(REST, x + y)
  {
    var i :| 0 <= i <= |y| && Matches(Star(NEXT_NAME), y[..i]) && Matches(SPACES, y[i..]);
    StarMore(x, y[..i]);
    CatBoth(Star(NEXT_NAME), SPACES, x + y[..i], y[i..]);
    assert x + y[..i] + y[i..] == x + y;
  }

  lemma RestSpaces(b: string)
    requires All(b, Space)
    ensures Matches(REST, b)
  {
    SpacesMatch(b);
    CatBoth(Star(NEXT_NAME), SPACES, "", b);
    assert "" + b == b;
  }

  /** What follows the first name: whitespace, and the other parts. */
  function AfterName(b: string, parts: seq<string>): string
    requires parts != []
  {
    if |parts| == 1 then b else b + ([','] + Commas(parts[1..]))
  }

  lemma FirstPart(parts: seq<string>, a: string, n: string, b: string)
    requires parts != [] && parts[0] == a + (n + b)
    ensures Commas(parts) == a + (n + AfterName(b, parts))
  {
    if |parts| > 1 {
      var tail := [','] + Commas(parts[1..]);
      assert (a + (n + b)) + tail == a + (n + (b + tail));
    }
  }

  /** Parts of the right shape, as the expression sees them. */
  lemma {:induction false} PartsMatch(parts: seq<string>, a: string, n: string, b: string)
    requires forall p {:trigger p in parts} :: p in parts ==> NamePart(p)
    requires parts != [] && parts[0] == a + (n + b) && All(b, Space)
    ensures Matches(REST, AfterName(b, parts))
    decreases |parts|
  {
    if |parts| == 1 {
      RestSpaces(b);
    } else {
      var rest := parts[1..];
      assert parts[1] in parts && rest[0] == parts[1];
      var a', n', b' :| rest[0] == a' + (n' + b') && All(a', Space) && NameShape(n') && All(b', Space);
      assert forall p {:trigger p in rest} :: p in rest ==> p in parts;
      PartsMatch(rest, a', n', b');
      FirstPart(rest, a', n', b');
      NextNameMatches(b, a', n');
      RestMore(b + ([','] + (a' + n')), AfterName(b', rest));
      Regroup(b, a', n', AfterName(b', rest));
    }
  }

  lemma Regroup(b: string, a: string, n: string, rest: string)
    ensures b + ([','] + (a + n)) + rest == b + ([','] + (a + (n + rest)))
  {
  }

  lemma ListMatches(a: string, n: string, rest: string)
    requires All(a, Space) && NameShape(n) && Matches(REST, rest)
    ensures Matches(GROUP_LIST, a + (n + rest))
  {
    var i :| 0 <= i <= |rest| && Matches(Star(NEXT_NAME), rest[..i]) && Matches(SPACES, rest[i..]);
    NameLanguage(n);
    CatBoth(NAME, Star(NEXT_NAME), n, rest[..i]);
    CatBoth(Optional(Cat(NAME, Star(NEXT_NAME))), SPACES, n + rest[..i], rest[i..]);
    SpacesMatch(a);
    CatBoth(SPACES, Cat(Optional(Cat(NAME, Star(NEXT_NAME))), SPACES), a, n + rest[..i] + rest[i..]);
    assert n + rest[..i] + rest[i..] == n + rest;
  }

  lemma PartsMatchList(s: string)
    requires forall p {:trigger p in Split(s)} :: p in Split(s) ==> NamePart(p)
    ensures Matches(GROUP_LIST, s)
  {
    var parts := Split(s);
    SplitCommas(s, "");
    assert "" + s == s;
    assert parts[0] in parts;
    var a, n, b :| parts[0] == a + (n + b) && All(a, Space) && NameShape(n) && All(b, Space);
    PartsMatch(parts, a, n, b);
    FirstPart(parts, a, n, b);
    ListMatches(a, n, AfterName(b, parts));
  }

  lemma SpacesMatchList(s: string)
    requires All(s, Space)
    ensures Matches(GROUP_LIST, s)
  {
    SpacesMatch(s);
    CatBoth(Optional(Cat(NAME, Star(NEXT_NAME))), SPACES, "", s);
    assert "" + s == s;
    CatBoth(SPACES, Cat(Optional(Cat(NAME, Star(NEXT_NAME))), SPACES), "", s);
  }

  // ---------------------------------------------------------------- what the list expression matches

  lemma {:induction false} SplitNoComma(x: string, rest: string, part: string)
    requires NoComma(x)
    ensures Text.SplitFrom(',', x + rest, part) == Text.SplitFrom(',', rest, part + x)
    decreases |x|
  {
    if x == "" {
      assert x + rest == rest && part + x == part;
    } else {
      assert x[0] != ',';
      assert (x + rest)[1..] == x[1..] + rest;
      forall i {:trigger x[1..][i]} | 0 <= i < |x[1..]| ensures x[1..][i] != ',' {
        assert x[1..][i] == x[i + 1];
      }
      SplitNoComma(x[1..], rest, part + [x[0]]);
      assert part + [x[0]] + x[1..] == part + x;
    }
  }

  lemma SpaceNoComma(s: string)
    requires All(s, Space)
    ensures NoComma(s)
  {
    forall i {:trigger s[i]} | 0 <= i < |s| ensures s[i] != ',' {
      assert In(s[i], Space);
    }
  }

  lemma NameNoComma(n: string)
    requires NameShape(n)
    ensures NoComma(n)
  {
    forall i {:trigger n[i]} | 0 <= i < |n| ensures n[i] != ',' {
      assert i > 0 && i < |n| - 1 ==> IsPortable(n[i]);
    }
  }

  /** The next name, taken apart. */
  lemma NextNameParts(x: string) returns (before: string, a: string, n: string)
    requires Matches(NEXT_NAME, x)
    ensures x == before + ([','] + (a + n)) && All(before, Space) && All(a, Space) && NameShape(n)
  {
    var y;
    before, y := CatParts(SPACES, Cat(One(Comma), Cat(SPACES, NAME)), x);
    var comma, z := CatParts(One(Comma), Cat(SPACES, NAME), y);
    a, n := CatParts(SPACES, NAME, z);
    SpacesMatch(before);
    SpacesMatch(a);
    NameLanguage(n);
    assert comma == [','];
  }

  /** The rest of a list, taken apart: whitespace alone, or a next name and a shorter rest. */
  lemma RestParts(t: string) returns (x: string, rest: string)
    requires Matches(REST, t)
    ensures if x == "" then All(t, Space) else t == x + rest && Matches(NEXT_NAME, x) && Matches(REST, rest)
  {
    var i :| 0 <= i <= |t| && Matches(Star(NEXT_NAME), t[..i]) && Matches(SPACES, t[i..]);
    var names, spaces := t[..i], t[i..];
    assert t == names + spaces;
    if names == "" {
      SpacesMatch(spaces);
      assert names + spaces == spaces;
      x, rest := "", t;
    } else {
      var j :| 0 < j <= |names| && Matches(NEXT_NAME, names[..j]) && Matches(Star(NEXT_NAME), names[j..]);
      x, rest := names[..j], names[j..] + spaces;
      assert names == names[..j] + names[j..];
      assert x + rest == t;
      CatBoth(Star(NEXT_NAME), SPACES, names[j..], spaces);
    }
  }

  lemma {:induction false} RestIsParts(a: string, n: string, t: string)
    requires All(a, Space) && NameShape(n) && Matches(REST, t)
    ensures forall p {:trigger p in Text.SplitFrom(',', t, a + n)} :: p in Text.SplitFrom(',', t, a + n) ==> NamePart(p)
    decreases |t|
  {
    var x, rest := RestParts(t);
    if x == "" {
      SpaceNoComma(t);
      SplitNoComma(t, "", a + n);
      assert t + "" == t;
      assert a + n + t == a + (n + t);
    } else {
      var before, a', n' := NextNameParts(x);
      var after := a' + (n' + rest);
      assert t == before + ([','] + after);
      SpaceNoComma(before);
      SplitNoComma(before, [','] + after, a + n);
      assert ([','] + after)[1..] == after;
      SpaceNoComma(a');
      NameNoComma(n');
      SplitNoComma(a', n' + rest, "");
      assert "" + a' == a';
      SplitNoComma(n', rest, a');
      RestIsParts(a', n', rest);
      assert a + n + before == a + (n + before);
      assert Text.SplitFrom(',', t, a + n) == [a + n + before] + Text.SplitFrom(',', rest, a' + n');
    }
  }

  lemma ListIsParts(s: string)
    requires Matches(GROUP_LIST, s) && !All(s, Space)
    ensures forall p {:trigger p in Split(s)} :: p in Split(s) ==> NamePart(p)
  {
    var a, y := CatParts(SPACES, Cat(Optional(Cat(NAME, Star(NEXT_NAME))), SPACES), s);
    var names, spaces := CatParts(Optional(Cat(NAME, Star(NEXT_NAME))), SPACES, y);
    SpacesMatch(a);
    SpacesMatch(spaces);
    OptionalParts(Cat(NAME, Star(NEXT_NAME)), names);
    var n, t := FirstName(names, spaces);
    assert s == a + (n + t) by {
      assert y == n + t;
    }
    SpaceNoComma(a);
    NameNoComma(n);
    SplitNoComma(a, n + t, "");
    assert "" + a == a;
    SplitNoComma(n, t, a);
    RestIsParts(a, n, t);
  }

  lemma FirstName(names: string, spaces: string) returns (n: string, t: string)
    requires Matches(Cat(NAME, Star(NEXT_NAME)), names) && Matches(SPACES, spaces)
    ensures names + spaces == n + t && NameShape(n) && Matches(REST, t)
  {
    var more;
    n, more := CatParts(NAME, Star(NEXT_NAME), names);
    NameLanguage(n);
    CatBoth(Star(NEXT_NAME), SPACES, more, spaces);
    t := more + spaces;
  }

  /** The regular expression of group lists accepts blank strings, and the strings whose comma-separated parts are
      all names with whitespace around them. */
  lemma GroupListLanguage(s: string)
    ensures Matches(GROUP_LIST, s) <==>
            All(s, Space) || forall p {:trigger p in Split(s)} :: p in Split(s) ==> NamePart(p)
  {
    if All(s, Space) {
      SpacesMatchList(s);
    } else if Matches(GROUP_LIST, s) {
      ListIsParts(s);
    } else if forall p {:trigger p in Split(s)} :: p in Split(s) ==> NamePart(p) {
      PartsMatchList(s);
    }
  }

  // ---------------------------------------------------------------- the answer for a list

  lemma {:induction false} CheckPartsNone(parts: seq<string>)
    ensures CheckParts(parts) == None <==> forall p {:trigger p in parts} :: p in parts ==> ValidName(Strip(p))
  {
    if parts != [] {
      NameAccepted(Strip(parts[0]));
      CheckPartsNone(parts[1..]);
      assert parts[0] in parts;
      forall p {:trigger p in parts} | p in parts ensures p == parts[0] || p in parts[1..] {
      }
      forall p {:trigger p in parts[1..]} | p in parts[1..] ensures p in parts {
      }
    }
  }

  /** For every nonempty string, the list is accepted exactly if each comma-separated part, stripped, is a valid name;
      the closing regular expression never changes the answer. The empty list is accepted. */
  lemma GroupListAccepted(s: string)
    ensures CheckGroupList("") == None
    ensures s != "" ==>
              (CheckGroupList(s) == None <==>
               forall p {:trigger p in Split(s)} :: p in Split(s) ==> ValidName(Strip(p)))
    ensures CheckGroupList(s) != Some(BadList)
  {
    if s != "" {
      var parts := Split(s);
      CheckPartsNone(parts);
      if CheckParts(parts) == None {
        forall p {:trigger p in parts} | p in parts ensures NamePart(p) {
          ValidHasShape(Strip(p));
          StrippedPart(p);
        }
        PartsMatchList(s);
      }
    }
  }

  // ---------------------------------------------------------------- which message is given

  predicate AllDigits(s: string) {
    forall i {:trigger s[i]} :: 0 <= i < |s| ==> '0' <= s[i] <= '9'
  }

  /** The character is not portable, apart from a dollar sign at the end. */
  predicate BadAt(name: string, i: nat) {
    i < |name| && !IsPortable(name[i]) && !(i == |name| - 1 && name[i] == '$')
  }

  /** Exactly when each message is given: the rules are looked at in this order. */
  lemma ProblemIff(name: string)
    requires name != ""
    ensures CheckName(name) == Some(StartsWithHyphen) <==> name[0] == '-'
    ensures CheckName(name) == Some(DotName) <==> name == ['.'] || name == ['.', '.']
    ensures CheckName(name) == Some(Numeric) <==> AllDigits(name)
    ensures CheckName(name) == Some(JustDollar) <==> name == ['$']
    ensures forall c :: CheckName(name) == Some(BadCharacter(c)) <==>
                        name[0] != '-' && exists i: nat {:trigger BadAt(name, i)} ::
                                            BadAt(name, i) && name[i] == c && forall j: nat | j < i :: !BadAt(name, j)
    ensures CheckName(name) == Some(TooLong) <==>
            name[0] != '-' && !AllDigits(name) && |name| > 32 &&
            forall i: nat {:trigger BadAt(name, i)} :: !BadAt(name, i)
  {
    NameRegexImplied(name);
    var w := WithoutDollar(name);
    FirstBadNone(w);
    if FirstBad(w).Some? {
      var i := FirstBadAt(w);
      forall j: nat | j < i ensures !BadAt(name, j) {
        assert w[..i][j] == name[j];
      }
      assert BadAt(name, i) && name[i] == FirstBad(w).value;
      forall k: nat | BadAt(name, k) && forall j: nat | j < k :: !BadAt(name, j) ensures k == i {
      }
      assert exists k: nat {:trigger BadAt(name, k)} :: BadAt(name, k);
      DigitsArePortable(name, i);
    } else {
      forall i: nat ensures !BadAt(name, i) {
        if i < |w| {
          assert In(w[i], Portable) && w[i] == name[i];
        }
      }
    }
    assert name[0] == '-' ==> !AllDigits(name) && name != ['.'] && name != ['.', '.'] && name != ['$'];
  }

  lemma DigitsArePortable(name: string, i: nat)
    requires BadAt(name, i)
    ensures !AllDigits(name) && name != ['.'] && name != ['.', '.'] && name != ['$']
  {
    assert !('0' <= name[i] <= '9');
  }

  /** The message for a list is that of its first part that is not a valid name. */
  lemma {:induction false} FirstProblem(parts: seq<string>)
    ensures CheckParts(parts).Some? ==>
              exists i {:trigger parts[i]} ::
                0 <= i < |parts| && CheckName(Strip(parts[i])) == CheckParts(parts) &&
                forall j {:trigger parts[j]} :: 0 <= j < i ==> CheckName(Strip(parts[j])) == None
  {
    if parts != [] && CheckName(Strip(parts[0])) == None && CheckParts(parts).Some? {
      FirstProblem(parts[1..]);
      var i :| 0 <= i < |parts[1..]| && CheckName(Strip(parts[1..][i])) == CheckParts(parts[1..]) &&
               forall j {:trigger parts[1..][j]} :: 0 <= j < i ==> CheckName(Strip(parts[1..][j])) == None;
      assert parts[i + 1] == parts[1..][i];
      forall j {:trigger parts[j]} | 0 <= j < i + 1 ensures CheckName(Strip(parts[j])) == None {
        if j > 0 {
          assert parts[j] == parts[1..][j - 1];
        }
      }
    }
  }

  // ---------------------------------------------------------------- the characters of names

  /** The portable characters: letters, digits, dot, underscore and hyphen. */
  lemma PortableIff(c: char)
    ensures IsPortable(c) <==> c in Text.LOWER || c in Text.UPPER || c in Text.DIGITS || c in "._-"
  {
    Text.InLower(c);
    Text.InUpper(c);
    Text.InDigits(c);
    assert "._-"[0] == '.' && "._-"[1] == '_' && "._-"[2] == '-';
  }
}
