/** Accumulating boot arguments from the words of a kernel command line. */
module KernelArgs {
  import opened Prelude

  const PREFIX := "inst."

  /** What is stored for an argument: nothing, a string, or a list. */
  datatype Value = NoValue | Str(s: string) | Items(items: seq<string>)

  /** A word, split at its first '='. */
  datatype Entry = Entry(key: string, value: Option<string>, prefixed: bool)

  datatype Kind = Appended | Listed | Plain

  /** Values of these arguments are joined by a space, or collected in a list; other values are replaced. */
  function KindOf(key: string): Kind {
    if key == "modprobe.blacklist" || key == "ifname" || key == "ip" then Appended
    else if key == "addrepo" then Listed
    else Plain
  }

  function SplitAtEquals(s: string): (string, Option<string>) {
    if s == "" then ("", None)
    else if s[0] == '=' then ("", Some(s[1..]))
    else var (key, value) := SplitAtEquals(s[1..]); ([s[0]] + key, value)
  }

  function ParseWord(word: string): Entry {
    var prefixed := PREFIX <= word;
    var (key, value) := SplitAtEquals(if prefixed then word[|PREFIX|..] else word);
    Entry(key, value, prefixed)
  }

  /** The arguments in insertion order, and those that were ever given with the prefix. */
  datatype Args = Args(keys: seq<string>, values: map<string, Value>, prefixed: set<string>)

  const EMPTY := Args([], map[], {})

  function Stored(value: Option<string>): Value {
    if value.Some? then Str(value.value) else NoValue
  }

  /** Whether a stored value counts as true. */
  predicate IsTrue(a: Args, key: string) {
    key in a.values && match a.values[key] case NoValue => false case Str(s) => s != "" case Items(items) => items != []
  }

  predicate HasText(value: Option<string>) {
    value.Some? && value.value != ""
  }

  function Put(a: Args, key: string, value: Value): Args {
    a.(keys := if key in a.values then a.keys else a.keys + [key], values := a.values[key := value])
  }

  function ItemsOf(a: Args, key: string): seq<string> {
    if IsTrue(a, key) && a.values[key].Items? then a.values[key].items else []
  }

  /** What one word does to the arguments. */
  function Add(a: Args, e: Entry): Args {
    var a := if e.prefixed then a.(prefixed := a.prefixed + {e.key}) else a;
    if KindOf(e.key) == Appended && IsTrue(a, e.key) then
      if HasText(e.value) && a.values[e.key].Str? then Put(a, e.key, Str(a.values[e.key].s + " " + e.value.value))
      else a
    else if KindOf(e.key) == Listed then
      if HasText(e.value) then Put(a, e.key, Items(ItemsOf(a, e.key) + [e.value.value])) else a
    else Put(a, e.key, Stored(e.value))
  }

  function AddAll(a: Args, words: seq<string>): Args {
    if words == [] then a else Add(AddAll(a, words[..|words| - 1]), ParseWord(words[|words| - 1]))
  }

  class KernelArguments {
    var keys: seq<string>
    var values: map<string, Value>
    var prefixed: set<string>

    function Contents(): Args
      reads this
    {
      Args(keys, values, prefixed)
    }

    constructor ()
      ensures Contents() == EMPTY
    {
      keys, values, prefixed := [], map[], {};
    }

    method Set(key: string, value: Value)
      modifies this`keys, this`values
      ensures Contents() == Put(old(Contents()), key, value)
    {
      if key !in values {
        keys := keys + [key];
      }
      values := values[key := value];
    }

    /** read_string, from the words on. */
    method ReadWords(words: seq<string>)
      modifies this
      ensures Contents() == AddAll(old(Contents()), words)
    {
      var i := 0;
      while i < |words|
        invariant 0 <= i <= |words|
        invariant Contents() == AddAll(old(Contents()), words[..i])
      {
        assert words[..i + 1][..i] == words[..i];
        var e := ParseWord(words[i]);
        if e.prefixed {
          prefixed := prefixed + {e.key};
        }
        if KindOf(e.key) == Appended && IsTrue(Contents(), e.key) {
          if HasText(e.value) && values[e.key].Str? {
            Set(e.key, Str(values[e.key].s + " " + e.value.value));
          }
        } else if KindOf(e.key) == Listed {
          if HasText(e.value) {
            Set(e.key, Items(ItemsOf(Contents(), e.key) + [e.value.value]));
          }
        } else {
          Set(e.key, Stored(e.value));
        }
        i := i + 1;
      }
      assert words[..i] == words;
    }

    /** read, from the words of each file on. */
    method ReadFiles(files: seq<seq<string>>)
      modifies this
      ensures Contents() == AddAll(old(Contents()), Flatten(files))
    {
      var i := 0;
      assert Flatten(files[..0]) == [];
      while i < |files|
        invariant 0 <= i <= |files|
        invariant Contents() == AddAll(old(Contents()), Flatten(files[..i]))
      {
        ReadWords(files[i]);
        AddConcat(old(Contents()), Flatten(files[..i]), files[i]);
        assert files[..i + 1][..i] == files[..i];
        i := i + 1;
      }
      assert files[..i] == files;
    }
  }

  function Flatten(files: seq<seq<string>>): seq<string> {
    if files == [] then [] else Flatten(files[..|files| - 1]) + files[|files| - 1]
  }

  /** Reading words in two goes is reading them in one. */
  lemma {:induction false} AddConcat(a: Args, x: seq<string>, y: seq<string>)
    ensures AddAll(a, x + y) == AddAll(AddAll(a, x), y)
    decreases |y|
  {
    if y == [] {
      assert x + y == x;
    } else {
      assert (x + y)[..|x + y| - 1] == x + y[..|y| - 1];
      AddConcat(a, x, y[..|y| - 1]);
    }
  }

  // ---------------------------------------------------------------- what is stored, key by key

  /** The values given to a key, in order. */
  function ValuesOf(words: seq<string>, key: string): seq<Option<string>> {
    if words == [] then []
    else
      var e := ParseWord(words[|words| - 1]);
      ValuesOf(words[..|words| - 1], key) + if e.key == key then [e.value] else []
  }

  /** Those that are not empty. */
  function Texts(values: seq<Option<string>>): seq<string> {
    if values == [] then []
    else
      var last := values[|values| - 1];
      Texts(values[..|values| - 1]) + if HasText(last) then [last.value] else []
  }

  function Joined(texts: seq<string>): string {
    if texts == [] then ""
    else if |texts| == 1 then texts[0]
    else Joined(texts[..|texts| - 1]) + " " + texts[|texts| - 1]
  }

  /** What the values given to a key should be stored as. */
  function Expected(kind: Kind, values: seq<Option<string>>): Option<Value> {
    if values == [] then None
    else match kind
         case Appended => Some(if Texts(values) != [] then Str(Joined(Texts(values))) else Stored(values[|values| - 1]))
         case Listed => if Texts(values) != [] then Some(Items(Texts(values))) else None
         case Plain => Some(Stored(values[|values| - 1]))
  }

  function Lookup(a: Args, key: string): Option<Value> {
    if key in a.values then Some(a.values[key]) else None
  }

  lemma {:induction false} JoinedTexts(values: seq<Option<string>>)
    ensures Texts(values) != [] ==> Joined(Texts(values)) != ""
    ensures forall t :: t in Texts(values) ==> t != ""
  {
    if values != [] {
      JoinedTexts(values[..|values| - 1]);
    }
  }

  lemma OneMoreValue(values: seq<Option<string>>, value: Option<string>)
    ensures Texts(values + [value]) == if HasText(value) then Texts(values) + [value.value] else Texts(values)
    ensures HasText(value) && Texts(values) == [] ==> Joined(Texts(values + [value])) == value.value
    ensures HasText(value) && Texts(values) != [] ==>
            Joined(Texts(values + [value])) == Joined(Texts(values)) + " " + value.value
  {
    assert (values + [value])[..|values|] == values;
    if HasText(value) {
      assert (Texts(values) + [value.value])[..|Texts(values)|] == Texts(values);
    }
  }

  /** What one more value makes of what is stored for a key. */
  function Updated(kind: Kind, stored: Option<Value>, value: Option<string>): Option<Value> {
    match kind
    case Appended =>
      if stored.Some? && stored.value.Str? && stored.value.s != "" then
        if HasText(value) then Some(Str(stored.value.s + " " + value.value)) else stored
      else Some(Stored(value))
    case Listed =>
      if HasText(value)
      then Some(Items((if stored.Some? && stored.value.Items? then stored.value.items else []) + [value.value]))
      else stored
    case Plain => Some(Stored(value))
  }

  lemma LookupAdded(a: Args, e: Entry)
    requires KindOf(e.key) == Appended && e.key in a.values ==> !a.values[e.key].Items?
    ensures Lookup(Add(a, e), e.key) == Updated(KindOf(e.key), Lookup(a, e.key), e.value)
  {
  }

  lemma UpdatedExpected(kind: Kind, values: seq<Option<string>>, value: Option<string>)
    ensures Updated(kind, Expected(kind, values), value) == Expected(kind, values + [value])
  {
    JoinedTexts(values);
    OneMoreValue(values, value);
    match kind
    case Appended =>
      if values == [] {
        assert values + [value] == [value];
      }
    case Listed =>
      assert [] + [if HasText(value) then value.value else ""] == [if HasText(value) then value.value else ""];
    case Plain =>
  }

  /** One more value for a key, if what is stored for it is as expected. */
  lemma AddExpected(a: Args, e: Entry, values: seq<Option<string>>)
    requires Lookup(a, e.key) == Expected(KindOf(e.key), values)
    ensures Lookup(Add(a, e), e.key) == Expected(KindOf(e.key), values + [e.value])
  {
    LookupAdded(a, e);
    UpdatedExpected(KindOf(e.key), values, e.value);
  }

  lemma AddOthers(a: Args, e: Entry, key: string)
    requires e.key != key
    ensures Lookup(Add(a, e), key) == Lookup(a, key)
  {
  }

  /** What is stored for any key depends on the values given to it, over all the words, and on nothing else: joined,
      listed, or the last one. */
  lemma {:induction false} StoredAsExpected(words: seq<string>, key: string)
    ensures Lookup(AddAll(EMPTY, words), key) == Expected(KindOf(key), ValuesOf(words, key))
  {
    if words != [] {
      var init, e := words[..|words| - 1], ParseWord(words[|words| - 1]);
      StoredAsExpected(init, key);
      if e.key == key {
        AddExpected(AddAll(EMPTY, init), e, ValuesOf(init, key));
      } else {
        AddOthers(AddAll(EMPTY, init), e, key);
        assert ValuesOf(init, key) + [] == ValuesOf(init, key);
      }
    }
  }

  predicate GivesPrefixed(word: string, key: string) {
    ParseWord(word).key == key && ParseWord(word).prefixed
  }

  /** A key is kept as prefixed exactly if some word gave it with the prefix. */
  lemma {:induction false} PrefixedIfGiven(words: seq<string>, key: string)
    ensures key in AddAll(EMPTY, words).prefixed <==> exists word :: word in words && GivesPrefixed(word, key)
  {
    if words != [] {
      var init, last := words[..|words| - 1], words[|words| - 1];
      PrefixedIfGiven(init, key);
      PrefixedAdded(AddAll(EMPTY, init), ParseWord(last), key);
      assert last in words;
      forall word {:trigger word in words} | word in words ensures word == last || word in init {
      }
      forall word {:trigger word in init} | word in init ensures word in words {
      }
      if exists word :: word in init && GivesPrefixed(word, key) {
        var word :| word in init && GivesPrefixed(word, key);
        assert word in words;
      }
    }
  }

  lemma PrefixedAdded(a: Args, e: Entry, key: string)
    ensures key in Add(a, e).prefixed <==> key in a.prefixed || (e.key == key && e.prefixed)
  {
  }

  /** The order of the arguments: the order in which they first got a value to store. */
  function Order(words: seq<string>): seq<string> {
    if words == [] then []
    else
      var before, e := Order(words[..|words| - 1]), ParseWord(words[|words| - 1]);
      if e.key in before || (KindOf(e.key) == Listed && !HasText(e.value)) then before else before + [e.key]
  }

  /** A list is stored for the arguments that are listed, and never an empty one. */
  predicate Fits(key: string, value: Value) {
    if KindOf(key) == Listed then value.Items? && value.items != [] else !value.Items?
  }

  ghost predicate Valid(a: Args) {
    && (forall k {:trigger k in a.keys} {:trigger k in a.values} :: k in a.keys <==> k in a.values)
    && (forall i, j :: 0 <= i < j < |a.keys| ==> a.keys[i] != a.keys[j])
    && (forall k {:trigger a.values[k]} :: k in a.values ==> Fits(k, a.values[k]))
  }

  lemma PutValid(a: Args, key: string, value: Value)
    requires Valid(a) && Fits(key, value)
    ensures Valid(Put(a, key, value))
  {
  }

  lemma AddValid(a: Args, e: Entry)
    requires Valid(a)
    ensures Valid(Add(a, e))
  {
    var b := if e.prefixed then a.(prefixed := a.prefixed + {e.key}) else a;
    assert Valid(b);
    if KindOf(e.key) == Appended && IsTrue(b, e.key) {
      if HasText(e.value) && b.values[e.key].Str? {
        PutValid(b, e.key, Str(b.values[e.key].s + " " + e.value.value));
      }
    } else if KindOf(e.key) == Listed {
      if HasText(e.value) {
        PutValid(b, e.key, Items(ItemsOf(b, e.key) + [e.value.value]));
      }
    } else {
      PutValid(b, e.key, Stored(e.value));
    }
  }

  lemma {:induction false} KeysInOrder(words: seq<string>)
    ensures Valid(AddAll(EMPTY, words)) && AddAll(EMPTY, words).keys == Order(words)
  {
    if words != [] {
      var init := words[..|words| - 1];
      KeysInOrder(init);
      AddValid(AddAll(EMPTY, init), ParseWord(words[|words| - 1]));
    }
  }

  // ---------------------------------------------------------------- the arguments in raw form

  function Named(key: string, prefixed: bool): string {
    if prefixed then PREFIX + key else key
  }

  function RawName(a: Args, key: string): string {
    Named(key, key in a.prefixed)
  }

  function WithValues(name: string, items: seq<string>): seq<string> {
    if items == [] then [] else WithValues(name, items[..|items| - 1]) + [name + (['='] + items[|items| - 1])]
  }

  /** A raw item of items_raw, spelled as words. */
  function RawWords(a: Args, key: string): seq<string>
    requires key in a.values
  {
    match a.values[key]
    case NoValue => [RawName(a, key)]
    case Str(s) => [RawName(a, key) + (['='] + s)]
    case Items(items) => WithValues(RawName(a, key), items)
  }

  /** items_raw, spelled as words. */
  function AllRawWords(a: Args, keys: seq<string>): seq<string>
    requires forall k :: k in keys ==> k in a.values
  {
    if keys == [] then [] else AllRawWords(a, keys[..|keys| - 1]) + RawWords(a, keys[|keys| - 1])
  }

  /** The key of a word: no '=' in it, and no prefix that was not dropped. */
  predicate Spellable(key: string, prefixed: bool) {
    '=' !in key && (prefixed || !(PREFIX <= key))
  }

  lemma {:induction false} SplitJoined(key: string, rest: string)
    requires '=' !in key
    ensures SplitAtEquals(key + (['='] + rest)) == (key, Some(rest)) && SplitAtEquals(key) == (key, None)
  {
    var s := key + (['='] + rest);
    if key == "" {
      assert s[1..] == rest;
    } else {
      assert key[0] in key;
      assert forall c :: c in key[1..] ==> c in key;
      SplitJoined(key[1..], rest);
      assert s[1..] == key[1..] + (['='] + rest);
      assert [key[0]] + key[1..] == key;
    }
  }

  lemma {:induction false} SplitKey(s: string)
    ensures '=' !in SplitAtEquals(s).0 && SplitAtEquals(s).0 <= s
  {
    if s != "" && s[0] != '=' {
      SplitKey(s[1..]);
    }
  }

  lemma ParsedSpellable(word: string)
    ensures Spellable(ParseWord(word).key, ParseWord(word).prefixed)
  {
    SplitKey(if PREFIX <= word then word[|PREFIX|..] else word);
  }

  lemma ParsePrefixed(rest: string)
    ensures ParseWord(PREFIX + rest) == Entry(SplitAtEquals(rest).0, SplitAtEquals(rest).1, true)
  {
    assert (PREFIX + rest)[|PREFIX|..] == rest;
  }

  /** A raw word is parsed as what it was made of. */
  lemma ParseRaw(key: string, prefixed: bool, s: string)
    requires Spellable(key, prefixed)
    ensures ParseWord(Named(key, prefixed)) == Entry(key, None, prefixed)
    ensures ParseWord(Named(key, prefixed) + (['='] + s)) == Entry(key, Some(s), prefixed)
  {
    SplitJoined(key, s);
    if prefixed {
      ParsePrefixed(key);
      ParsePrefixed(key + (['='] + s));
      assert PREFIX + key + (['='] + s) == PREFIX + (key + (['='] + s));
    } else {
      ParseUnprefixed(key, s);
    }
  }

  lemma ParseUnprefixed(key: string, s: string)
    requires Spellable(key, false)
    ensures ParseWord(key) == Entry(key, None, false) && ParseWord(key + (['='] + s)) == Entry(key, Some(s), false)
  {
    SplitJoined(key, s);
    if PREFIX <= key + (['='] + s) {
      NoPrefixBeforeEquals(key, s);
    }
  }

  lemma NoPrefixBeforeEquals(key: string, s: string)
    requires PREFIX <= key + (['='] + s)
    ensures PREFIX <= key
  {
    var word := key + (['='] + s);
    assert word[|key|] == '=';
    assert '=' !in PREFIX;
    forall i | 0 <= i < |PREFIX| ensures word[i] == PREFIX[i] != '=' {
      assert PREFIX[i] in PREFIX;
    }
    assert |PREFIX| <= |key|;
    assert key[..|PREFIX|] == word[..|PREFIX|];
  }

  function Prefixing(b: Args, key: string, prefixed: bool): Args {
    if prefixed then b.(prefixed := b.prefixed + {key}) else b
  }

  /** The first item of a list, and one more. */
  lemma AddFirstItem(b: Args, key: string, prefixed: bool, item: string)
    requires key !in b.values && KindOf(key) == Listed && item != ""
    ensures Add(b, Entry(key, Some(item), prefixed)) == Put(Prefixing(b, key, prefixed), key, Items([item]))
  {
    assert [] + [item] == [item];
  }

  lemma AddNextItem(b: Args, key: string, prefixed: bool, items: seq<string>, item: string)
    requires key !in b.values && KindOf(key) == Listed && items != [] && item != ""
    ensures Add(Put(Prefixing(b, key, prefixed), key, Items(items)), Entry(key, Some(item), prefixed)) ==
            Put(Prefixing(b, key, prefixed), key, Items(items + [item]))
  {
    var c := Put(Prefixing(b, key, prefixed), key, Items(items));
    assert prefixed ==> c.prefixed + {key} == c.prefixed;
    assert ItemsOf(c, key) == items;
    assert c.values[key := Items(items + [item])] == b.values[key := Items(items + [item])];
  }

  lemma AddLast(b: Args, words: seq<string>, word: string)
    ensures AddAll(b, words + [word]) == Add(AddAll(b, words), ParseWord(word))
  {
    assert (words + [word])[..|words|] == words;
  }

  lemma ValuesSnoc(name: string, items: seq<string>, item: string)
    ensures WithValues(name, items + [item]) == WithValues(name, items) + [name + (['='] + item)]
  {
    assert (items + [item])[..|items|] == items;
  }

  lemma AddItem(b: Args, key: string, prefixed: bool, items: seq<string>, item: string)
    requires Spellable(key, prefixed)
    ensures AddAll(b, WithValues(Named(key, prefixed), items + [item])) ==
            Add(AddAll(b, WithValues(Named(key, prefixed), items)), Entry(key, Some(item), prefixed))
  {
    ValuesSnoc(Named(key, prefixed), items, item);
    ParseRaw(key, prefixed, item);
    AddLast(b, WithValues(Named(key, prefixed), items), Named(key, prefixed) + (['='] + item));
  }

  lemma TakeOneMore(items: seq<string>, k: nat)
    requires 0 < k <= |items|
    ensures items[..k - 1] + [items[k - 1]] == items[..k]
    ensures k == 1 ==> items[..k - 1] == [] && items[..k] == [items[k - 1]]
  {
  }

  lemma {:induction false} AddWithValues(b: Args, key: string, prefixed: bool, items: seq<string>, k: nat)
    requires Spellable(key, prefixed) && key !in b.values && KindOf(key) == Listed
    requires 0 < k <= |items| && forall i {:trigger items[i]} :: 0 <= i < |items| ==> items[i] != ""
    ensures AddAll(b, WithValues(Named(key, prefixed), items[..k])) ==
            Put(Prefixing(b, key, prefixed), key, Items(items[..k]))
  {
    var init, last := items[..k - 1], items[k - 1];
    TakeOneMore(items, k);
    AddItem(b, key, prefixed, init, last);
    if k == 1 {
      AddFirstItem(b, key, prefixed, last);
    } else {
      AddWithValues(b, key, prefixed, items, k - 1);
      AddNextItem(b, key, prefixed, init, last);
    }
  }

  ghost predicate Reached(a: Args) {
    && Valid(a)
    && (forall k {:trigger k in a.values} :: k in a.values ==> Spellable(k, k in a.prefixed))
    && (forall k, i {:trigger a.values[k].items[i]} ::
          k in a.values && a.values[k].Items? && 0 <= i < |a.values[k].items| ==> a.values[k].items[i] != "")
  }

  /** The raw words of a new key store its value. */
  lemma AddRaw(b: Args, a: Args, key: string)
    requires Reached(a) && key in a.values && key !in b.values
    ensures AddAll(b, RawWords(a, key)) == Put(Prefixing(b, key, key in a.prefixed), key, a.values[key])
  {
    var value := a.values[key];
    var words := RawWords(a, key);
    if value.Items? {
      AddWithValues(b, key, key in a.prefixed, value.items, |value.items|);
      assert value.items[..|value.items|] == value.items;
    } else {
      ParseRaw(key, key in a.prefixed, if value.Str? then value.s else "");
      assert words[..0] == [];
      assert Fits(key, value);
    }
  }

  /** b holds what a holds for these keys, and nothing else. */
  ghost predicate Holds(b: Args, a: Args, keys: seq<string>) {
    && b.keys == keys
    && (forall k {:trigger k in b.values} :: k in b.values <==> k in keys)
    && (forall k {:trigger b.values[k]} :: k in b.values ==> k in a.values && b.values[k] == a.values[k])
    && (forall k {:trigger k in b.prefixed} :: k in b.prefixed <==> k in keys && k in a.prefixed)
  }

  lemma HoldsMore(b: Args, a: Args, keys: seq<string>, key: string)
    requires Holds(b, a, keys) && key in a.values && key !in b.values
    ensures Holds(Put(Prefixing(b, key, key in a.prefixed), key, a.values[key]), a, keys + [key])
  {
  }

  /** The raw words of one more key. */
  lemma RawWordsHoldNext(a: Args, init: seq<string>, key: string)
    requires Reached(a) && key in a.values && key !in init && forall k :: k in init ==> k in a.values
    requires Holds(AddAll(EMPTY, AllRawWords(a, init)), a, init)
    ensures Holds(AddAll(EMPTY, AllRawWords(a, init) + RawWords(a, key)), a, init + [key])
  {
    var b := AddAll(EMPTY, AllRawWords(a, init));
    AddConcat(EMPTY, AllRawWords(a, init), RawWords(a, key));
    AddRaw(b, a, key);
    HoldsMore(b, a, init, key);
  }

  lemma AllRawNext(a: Args, init: seq<string>, key: string)
    requires key in a.values && forall k :: k in init ==> k in a.values
    ensures (forall k :: k in init + [key] ==> k in a.values) &&
            AllRawWords(a, init + [key]) == AllRawWords(a, init) + RawWords(a, key)
  {
    assert (init + [key])[..|init|] == init;
  }

  lemma {:induction false} RawWordsHold(a: Args, k: nat)
    requires Reached(a) && k <= |a.keys|
    ensures Holds(AddAll(EMPTY, AllRawWords(a, a.keys[..k])), a, a.keys[..k])
  {
    if k > 0 {
      var init, key := a.keys[..k - 1], a.keys[k - 1];
      assert init + [key] == a.keys[..k];
      assert key in a.keys && key !in init;
      RawWordsHold(a, k - 1);
      RawWordsHoldNext(a, init, key);
      AllRawNext(a, init, key);
    }
  }

  lemma {:induction false} ReachedByWords(words: seq<string>)
    ensures Reached(AddAll(EMPTY, words))
  {
    if words != [] {
      var init, word := words[..|words| - 1], words[|words| - 1];
      ReachedByWords(init);
      ParsedSpellable(word);
      AddValid(AddAll(EMPTY, init), ParseWord(word));
      AddReached(AddAll(EMPTY, init), ParseWord(word));
    }
  }

  lemma AddReached(a: Args, e: Entry)
    requires Reached(a) && Spellable(e.key, e.prefixed)
    ensures Reached(Add(a, e))
  {
    var b := Add(a, e);
    AddValid(a, e);
    forall k {:trigger k in b.values} | k in b.values ensures Spellable(k, k in b.prefixed) {
      assert k == e.key || k in a.values;
    }
    forall k, i {:trigger b.values[k].items[i]} | k in b.values && b.values[k].Items? && 0 <= i < |b.values[k].items|
      ensures b.values[k].items[i] != ""
    {
      if k == e.key {
        AddedItem(a, e, i);
      } else {
        assert b.values[k] == a.values[k] && a.values[k].items[i] != "";
      }
    }
  }

  lemma AddedItem(a: Args, e: Entry, i: nat)
    requires Reached(a) && e.key in Add(a, e).values && Add(a, e).values[e.key].Items? &&
        i < |Add(a, e).values[e.key].items|
    ensures Add(a, e).values[e.key].items[i] != ""
  {
    if e.key in a.values && a.values[e.key].Items? {
      assert i < |a.values[e.key].items| ==> a.values[e.key].items[i] != "";
    }
  }

  ghost predicate SameArgs(b: Args, a: Args) {
    b.keys == a.keys && b.values == a.values &&
    forall k {:trigger k in a.values} :: k in a.values ==> (k in b.prefixed <==> k in a.prefixed)
  }

  lemma HoldsAll(b: Args, a: Args)
    requires Valid(a) && Holds(b, a, a.keys)
    ensures SameArgs(b, a)
  {
    assert forall k :: k in b.values <==> k in a.values;
  }

  lemma RawOfReached(a: Args)
    requires Reached(a)
    ensures SameArgs(AddAll(EMPTY, AllRawWords(a, a.keys)), a)
  {
    RawWordsHold(a, |a.keys|);
    assert a.keys[..|a.keys|] == a.keys;
    HoldsAll(AddAll(EMPTY, AllRawWords(a, a.keys)), a);
  }

  /** The raw form spelled as words again, with prefixes, is read as the same arguments. */
  lemma RawRoundTrip(words: seq<string>)
    ensures Valid(AddAll(EMPTY, words))
    ensures SameArgs(AddAll(EMPTY, AllRawWords(AddAll(EMPTY, words), AddAll(EMPTY, words).keys)), AddAll(EMPTY, words))
  {
    ReachedByWords(words);
    RawOfReached(AddAll(EMPTY, words));
  }

  /** How an argument is spelled as a word. */
  function Spelled(e: Entry): string {
    Named(e.key, e.prefixed) + match e.value case Some(s) => ['='] + s case None => ""
  }

  lemma {:induction false} JoinSplit(s: string)
    ensures var (key, value) := SplitAtEquals(s);
            s == key + match value case Some(v) => ['='] + v case None => ""
  {
    if s != "" && s[0] != '=' {
      JoinSplit(s[1..]);
      assert [s[0]] + s[1..] == s;
    }
  }

  lemma ParsedSpelled(word: string)
    ensures Spelled(ParseWord(word)) == word
  {
    var e := ParseWord(word);
    var tail := match e.value case Some(s) => ['='] + s case None => "";
    if e.prefixed {
      JoinSplit(word[|PREFIX|..]);
      PrefixRest(PREFIX, e.key, tail, word);
    } else {
      JoinSplit(word);
    }
  }

  lemma PrefixRest(prefix: string, key: string, tail: string, word: string)
    requires prefix <= word && word[|prefix|..] == key + tail
    ensures prefix + key + tail == word
  {
  }

  lemma SpelledParsed(e: Entry)
    requires Spellable(e.key, e.prefixed)
    ensures ParseWord(Spelled(e)) == e
  {
    ParseRaw(e.key, e.prefixed, if e.value.Some? then e.value.value else "");
    assert Named(e.key, e.prefixed) + "" == Named(e.key, e.prefixed);
  }

  /** A word is read as an argument exactly if it is spelled so, with a key that has no '=' in it, nor the prefix in
      front unless the prefix was given twice. */
  lemma ParseIff(word: string, e: Entry)
    ensures ParseWord(word) == e <==> Spellable(e.key, e.prefixed) && word == Spelled(e)
    ensures ParseWord(word).prefixed <==> "inst." <= word
  {
    ParsedSpellable(word);
    ParsedSpelled(word);
    if Spellable(e.key, e.prefixed) {
      SpelledParsed(e);
    }
  }

  /** Which arguments are joined, and which are collected. */
  lemma KindIs(key: string)
    ensures KindOf(key) == Appended <==> key in ["modprobe.blacklist", "ifname", "ip"]
    ensures KindOf(key) == Listed <==> key in ["addrepo"]
  {
    assert |"addrepo"| == 7 && |"modprobe.blacklist"| == 18 && |"ifname"| == 6 && |"ip"| == 2;
  }
}
