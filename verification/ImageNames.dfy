/** Unique names for disk images given on the command line. */
module ImageNames {
  import opened Prelude
  import opened Whitespace
  import Text

  /** What the operating system says about paths. */
  datatype FileSystem = FileSystem(absolute: string -> string, present: string -> bool, isDirectory: string -> bool)

  datatype Error = EmptyPath | NonExistent(path: string) | Directory(path: string) | Duplicate(path: string)
    | SlashInName(name: string)

  /** A path, and the name to start from. */
  datatype Image = Image(path: string, base: string)

  // ---------------------------------------------------------------- specifications

  /** str.rfind of a character. */
  function LastIndex(s: string, c: char): (r: Option<nat>)
    ensures r.Some? ==> r.value < |s| && s[r.value] == c && c !in s[r.value + 1..]
    ensures r.None? ==> c !in s
  {
    if s == "" then None
    else if s[|s| - 1] == c then Some(|s| - 1)
    else
      assert s == s[..|s| - 1] + [s[|s| - 1]];
      match LastIndex(s[..|s| - 1], c)
      case None => None
      case Some(i) =>
        assert s[i + 1..] == s[..|s| - 1][i + 1..] + [s[|s| - 1]];
        Some(i)
  }

  /** The path and the name of "path:name", split at the last colon. */
  function SplitSpec(spec: string): (string, string) {
    match LastIndex(spec, ':')
    case Some(i) => (spec[..i], Strip(spec[i + 1..]))
    case None => (spec, "")
  }

  function BaseName(path: string): string {
    match LastIndex(path, '/')
    case Some(i) => path[i + 1..]
    case None => path
  }

  predicate AllDots(s: string) {
    forall i {:trigger s[i]} :: 0 <= i < |s| ==> s[i] == '.'
  }

  /** The root of os.path.splitext: leading dots start no extension. */
  function Root(file: string): string {
    match LastIndex(file, '.')
    case Some(i) => if AllDots(file[..i]) then file else file[..i]
    case None => file
  }

  /** A specification is split at its last colon, if it has one. */
  lemma SpecIsSplit(spec: string)
    ensures var (given, name) := SplitSpec(spec);
            if ':' in spec then exists raw :: spec == given + ([':'] + raw) && ':' !in raw && name == Strip(raw)
            else given == spec && name == ""
  {
    if LastIndex(spec, ':').Some? {
      var i := LastIndex(spec, ':').value;
      assert spec == spec[..i] + ([':'] + spec[i + 1..]);
    }
  }

  /** A file name in two: what stands before its last dot has something other than dots. */
  predicate HasExtension(file: string, root: string, extension: string) {
    file == root + (['.'] + extension) && '.' !in extension &&
    exists i {:trigger root[i]} :: 0 <= i < |root| && root[i] != '.'
  }

  lemma LastDot(root: string, extension: string)
    requires '.' !in extension
    ensures var file := root + (['.'] + extension);
            LastIndex(file, '.') == Some(|root|) && file[..|root|] == root
  {
    var file := root + (['.'] + extension);
    assert file[|root|] == '.';
  }

  /** The root of a file name is what stands before its extension, and all of it only if it has none. */
  lemma RootShape(file: string)
    ensures (exists extension :: HasExtension(file, Root(file), extension)) ||
            (Root(file) == file && forall root, extension :: !HasExtension(file, root, extension))
    ensures forall root, extension :: HasExtension(file, root, extension) ==> Root(file) == root
  {
    forall root, extension | HasExtension(file, root, extension)
      ensures LastIndex(file, '.') == Some(|root|) && file[..|root|] == root && Root(file) == root
    {
      LastDot(root, extension);
    }
    if LastIndex(file, '.').Some? {
      var i := LastIndex(file, '.').value;
      assert file == file[..i] + (['.'] + file[i + 1..]);
      assert !AllDots(file[..i]) ==> HasExtension(file, Root(file), file[i + 1..]);
    }
  }

  /** One specification checked, in the order of the checks, against the paths seen before. */
  function Resolve(spec: string, fs: FileSystem, paths: seq<string>): Result<Image, Error> {
    var (given, name) := SplitSpec(spec);
    if given == "" then Err(EmptyPath)
    else
      var path := fs.absolute(given);
      if !fs.present(path) then Err(NonExistent(path))
      else if fs.isDirectory(path) then Err(Directory(path))
      else if path in paths then Err(Duplicate(path))
      else if '/' in name then Err(SlashInName(name))
      else Ok(Image(path, if name == "" then Root(BaseName(path)) else name))
  }

  // ---------------------------------------------------------------- unique names

  /** "%s_%d". */
  function Numbered(name: string, n: nat): string {
    name + (['_'] + Text.Decimal(n))
  }

  lemma NumberedInjective(name: string, m: nat, n: nat)
    requires Numbered(name, m) == Numbered(name, n)
    ensures m == n
  {
    assert Numbered(name, m)[|name| + 1..] == Text.Decimal(m);
    assert Numbered(name, n)[|name| + 1..] == Text.Decimal(n);
    Text.DecimalValue(m);
    Text.DecimalValue(n);
  }

  predicate Distinct(s: seq<string>) {
    forall i, j :: 0 <= i < j < |s| ==> s[i] != s[j]
  }

  lemma {:induction false} SetOfSeq(s: seq<string>)
    ensures |set x | x in s| <= |s|
  {
    if s != [] {
      SetOfSeq(s[1..]);
      assert (set x | x in s) == (set x | x in s[1..]) + {s[0]};
    }
  }

  ghost predicate AllTaken(name: string, names: seq<string>, n: nat) {
    forall m {:trigger Numbered(name, m)} :: 0 <= m < n ==> Numbered(name, m) in names
  }

  /** The first n numbered names are n different ones. */
  lemma {:induction false} TakenNames(name: string, names: seq<string>, n: nat) returns (taken: set<string>)
    requires AllTaken(name, names, n)
    ensures |taken| == n && taken <= (set x | x in names)
    ensures forall x :: x in taken ==> exists m :: 0 <= m < n && x == Numbered(name, m)
  {
    if n == 0 {
      taken := {};
    } else {
      taken := TakenNames(name, names, n - 1);
      if Numbered(name, n - 1) in taken {
        var m :| 0 <= m < n - 1 && Numbered(name, n - 1) == Numbered(name, m);
        NumberedInjective(name, m, n - 1);
      }
      taken := taken + {Numbered(name, n - 1)};
    }
  }

  lemma CardinalityOfSubset(x: set<string>, y: set<string>)
    requires x <= y
    ensures |x| <= |y|
  {
    assert y == x + (y - x);
  }

  /** No more numbered names are taken than there are names. */
  lemma Pigeonhole(name: string, names: seq<string>, n: nat)
    requires AllTaken(name, names, n)
    ensures n <= |names|
  {
    var taken := TakenNames(name, names, n);
    SetOfSeq(names);
    CardinalityOfSubset(taken, set x | x in names);
  }

  /** The name itself if it is free, or else its first numbered name that is. */
  ghost predicate FirstFree(r: string, name: string, names: seq<string>) {
    if name !in names then r == name
    else exists n: nat {:trigger Numbered(name, n)} ::
      r == Numbered(name, n) && r !in names && AllTaken(name, names, n) && n <= |names|
  }

  /** The search for a free name ends within one more try than there are names seen. */
  method UniqueName(name: string, names: seq<string>) returns (r: string, tries: nat)
    ensures FirstFree(r, name, names) && r !in names
    ensures name in names ==> exists n: nat {:trigger Text.Decimal(n)} :: r == name + (['_'] + Text.Decimal(n))
    ensures tries <= |names| + 1
  {
    if name !in names {
      return name, 0;
    }
    var n := 0;
    while Numbered(name, n) in names
      invariant AllTaken(name, names, n) && n <= |names|
      decreases |names| - n
    {
      assert AllTaken(name, names, n + 1);
      Pigeonhole(name, names, n + 1);
      n := n + 1;
    }
    r, tries := Numbered(name, n), n + 1;
  }

  /** The names given to the images so far. */
  ghost predicate NamedInOrder(images: seq<Image>, names: seq<string>) {
    |names| == |images| && forall i {:trigger names[i]} :: 0 <= i < |names| ==>
      FirstFree(names[i], images[i].base, names[..i])
  }

  predicate ResolvedAt(spec: string, fs: FileSystem, before: seq<string>, image: Image, path: string) {
    Resolve(spec, fs, before) == Ok(image) && image.path == path
  }

  /** The specifications so far checked against the paths before them. */
  ghost predicate ResolvedInOrder(specs: seq<string>, fs: FileSystem, images: seq<Image>, paths: seq<string>) {
    && |images| == |paths| <= |specs|
    && forall i {:trigger paths[i]} :: 0 <= i < |paths| ==> ResolvedAt(specs[i], fs, paths[..i], images[i], paths[i])
  }

  /** name_path_pairs: what is yielded, and the error that ends it, if any. */
  method NamePathPairs(specs: seq<string>, fs: FileSystem)
    returns (names: seq<string>, paths: seq<string>, error: Option<Error>, ghost images: seq<Image>)
    ensures Distinct(names) && Distinct(paths)
    ensures ResolvedInOrder(specs, fs, images, paths) && NamedInOrder(images, names)
    ensures error == None ==> |paths| == |specs|
    ensures error.Some? ==> |paths| < |specs| && Resolve(specs[|paths|], fs, paths) == Err(error.value)
  {
    names, paths, error, images := [], [], None, [];
    for i := 0 to |specs|
      invariant |paths| == i
      invariant Distinct(names) && Distinct(paths)
      invariant ResolvedInOrder(specs, fs, images, paths) && NamedInOrder(images, names)
    {
      var image := Resolve(specs[i], fs, paths);
      if image.Err? {
        return names, paths, Some(image.error), images;
      }
      var name, _ := UniqueName(image.value.base, names);
      KeepOrder(specs, fs, images, paths, image.value);
      KeepNames(images, names, image.value, name);
      names := names + [name];
      paths := paths + [image.value.path];
      images := images + [image.value];
    }
  }

  lemma KeepOrder(specs: seq<string>, fs: FileSystem, images: seq<Image>, paths: seq<string>, image: Image)
    requires ResolvedInOrder(specs, fs, images, paths) && Distinct(paths)
    requires |paths| < |specs| && Resolve(specs[|paths|], fs, paths) == Ok(image)
    ensures ResolvedInOrder(specs, fs, images + [image], paths + [image.path]) && Distinct(paths + [image.path])
  {
    var paths' := paths + [image.path];
    ResolvedIsNew(specs[|paths|], fs, paths, image);
    forall i {:trigger paths'[i]} | 0 <= i < |paths'|
      ensures ResolvedAt(specs[i], fs, paths'[..i], (images + [image])[i], paths'[i])
    {
      assert paths'[..i] == if i < |paths| then paths[..i] else paths;
      assert i < |paths| ==> paths'[i] == paths[i];
    }
  }

  lemma ResolvedIsNew(spec: string, fs: FileSystem, paths: seq<string>, image: Image)
    requires Resolve(spec, fs, paths) == Ok(image)
    ensures image.path !in paths
  {
  }

  lemma KeepNames(images: seq<Image>, names: seq<string>, image: Image, name: string)
    requires NamedInOrder(images, names) && Distinct(names) && FirstFree(name, image.base, names) && name !in names
    ensures NamedInOrder(images + [image], names + [name]) && Distinct(names + [name])
  {
    var names' := names + [name];
    forall i {:trigger names'[i]} | 0 <= i < |names'|
      ensures FirstFree(names'[i], (images + [image])[i].base, names'[..i])
    {
      assert names'[..i] == if i < |names| then names[..i] else names;
      assert i < |names| ==> names'[i] == names[i];
    }
  }

  // ---------------------------------------------------------------- one specification

  /** The base name is what follows the last slash. */
  lemma BaseNameShape(path: string)
    ensures '/' !in BaseName(path)
    ensures BaseName(path) == path || exists dir :: path == dir + (['/'] + BaseName(path))
  {
    if LastIndex(path, '/').Some? {
      var i := LastIndex(path, '/').value;
      assert path == path[..i] + (['/'] + path[i + 1..]);
    }
  }

  /** Exactly when a specification is refused, and why: the checks are made in this order. */
  lemma ResolveIff(spec: string, fs: FileSystem, paths: seq<string>)
    ensures var (given, name) := SplitSpec(spec);
            var path := fs.absolute(given);
            var r := Resolve(spec, fs, paths);
            && (r == Err(EmptyPath) <==> given == "")
            && (r == Err(NonExistent(path)) <==> given != "" && !fs.present(path))
            && (r == Err(Directory(path)) <==> given != "" && fs.present(path) && fs.isDirectory(path))
            && (r == Err(Duplicate(path)) <==>
                  given != "" && fs.present(path) && !fs.isDirectory(path) && path in paths)
            && (r == Err(SlashInName(name)) <==>
                  given != "" && fs.present(path) && !fs.isDirectory(path) && path !in paths && '/' in name)
            && (r == Ok(Image(path, if name != "" then name else Root(BaseName(path)))) <==>
                  given != "" && fs.present(path) && !fs.isDirectory(path) && path !in paths && '/' !in name)
  {
  }
}
