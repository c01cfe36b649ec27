/** Devices that match a specification, without a device tree. What udev answers is fixed over a call. */
module Devices {
  import opened Prelude
  import Text

  /** What udev and the path functions answer. */
  datatype Udev = Udev(glob: string -> seq<string>, resolve: string -> Option<string>, isDisk: string -> bool,
    normal: string -> string)

  const DEV := "/dev/"

  function FullSpec(spec: string, udev: Udev): string {
    if DEV <= spec then spec else udev.normal(DEV + spec)
  }

  /** The devices one sub-specification stands for, with repetitions: those of the glob, then the resolved one. */
  function Named(spec: string, udev: Udev): seq<string> {
    udev.glob(FullSpec(spec, udev)) + Resolved(spec, udev)
  }

  function Resolved(spec: string, udev: Udev): seq<string> {
    match udev.resolve(spec)
    case Some(name) => if name != "" then [name] else []
    case None => []
  }

  function NamedAll(specs: seq<string>, udev: Udev): seq<string> {
    if specs == [] then [] else NamedAll(specs[..|specs| - 1], udev) + Named(specs[|specs| - 1], udev)
  }

  function Split(spec: string): seq<string> {
    Text.SplitFrom('|', spec, "")
  }

  /** The first of each of equal elements, in order. */
  function Dedup(s: seq<string>): seq<string> {
    if s == [] then []
    else
      var before, last := Dedup(s[..|s| - 1]), s[|s| - 1];
      if last in before then before else before + [last]
  }

  /** Only the disks, in disks-only mode. */
  function Disks(s: seq<string>, udev: Udev): seq<string> {
    if s == [] then [] else Disks(s[..|s| - 1], udev) + if udev.isDisk(s[|s| - 1]) then [s[|s| - 1]] else []
  }

  function Kept(s: seq<string>, disksOnly: bool, udev: Udev): seq<string> {
    if disksOnly then Disks(s, udev) else s
  }

  /** The devices of all sub-specifications, kept and without repetitions. */
  function Matching(spec: string, disksOnly: bool, udev: Udev): seq<string> {
    Dedup(Kept(NamedAll(Split(spec), udev), disksOnly, udev))
  }

  lemma KeptSnoc(s: seq<string>, x: string, disksOnly: bool, udev: Udev)
    ensures Kept(s + [x], disksOnly, udev) ==
            Kept(s, disksOnly, udev) + if disksOnly && !udev.isDisk(x) then [] else [x]
  {
    assert (s + [x])[..|s|] == s;
  }

  lemma DedupSnoc(s: seq<string>, x: string)
    ensures Dedup(s + [x]) == if x in Dedup(s) then Dedup(s) else Dedup(s) + [x]
  {
    assert (s + [x])[..|s|] == s;
  }

  /** One more device. */
  lemma MatchNext(s: seq<string>, x: string, disksOnly: bool, udev: Udev)
    ensures var found := Dedup(Kept(s, disksOnly, udev));
            Dedup(Kept(s + [x], disksOnly, udev)) ==
            if x in found || (disksOnly && !udev.isDisk(x)) then found else found + [x]
  {
    KeptSnoc(s, x, disksOnly, udev);
    DedupSnoc(Kept(s, disksOnly, udev), x);
    assert Kept(s, disksOnly, udev) + [] == Kept(s, disksOnly, udev);
  }

  /** What was found of the devices named so far. */
  ghost predicate Found(named: seq<string>, matches: seq<string>, disksOnly: bool, udev: Udev) {
    matches == Dedup(Kept(named, disksOnly, udev))
  }

  lemma FoundNext(named: seq<string>, x: string, matches: seq<string>, disksOnly: bool, udev: Udev)
    requires Found(named, matches, disksOnly, udev)
    ensures Found(named + [x], if x in matches || (disksOnly && !udev.isDisk(x)) then matches else matches + [x],
                  disksOnly, udev)
  {
    MatchNext(named, x, disksOnly, udev);
  }

  lemma Assoc(named: seq<string>, s: seq<string>, i: nat)
    requires i < |s|
    ensures named + s[..i] + [s[i]] == named + s[..i + 1]
  {
  }

  /** The regular case: the devices of a glob. */
  method AddGlobbed(globbed: seq<string>, disksOnly: bool, udev: Udev, before: seq<string>, ghost named: seq<string>)
    returns (matches: seq<string>)
    requires Found(named, before, disksOnly, udev)
    ensures Found(named + globbed, matches, disksOnly, udev)
  {
    matches := before;
    assert named + globbed[..0] == named;
    for i := 0 to |globbed|
      invariant Found(named + globbed[..i], matches, disksOnly, udev)
    {
      FoundNext(named + globbed[..i], globbed[i], matches, disksOnly, udev);
      Assoc(named, globbed, i);
      if globbed[i] !in matches {
        if disksOnly && !udev.isDisk(globbed[i]) {
          continue;
        }
        matches := matches + [globbed[i]];
      }
    }
    assert globbed[..|globbed|] == globbed;
  }

  /** The resolved device, if there is one. */
  method AddResolved(spec: string, disksOnly: bool, udev: Udev, before: seq<string>, ghost named: seq<string>)
    returns (matches: seq<string>)
    requires Found(named, before, disksOnly, udev)
    ensures Found(named + Resolved(spec, udev), matches, disksOnly, udev)
  {
    matches := before;
    var name := udev.resolve(spec);
    if disksOnly && name.Some? && name.value != "" && !udev.isDisk(name.value) {
      FoundNext(named, name.value, matches, disksOnly, udev);
      name := None;
    } else if name.Some? && name.value != "" {
      FoundNext(named, name.value, matches, disksOnly, udev);
    } else {
      assert named + [] == named;
    }
    if name.Some? && name.value != "" && name.value !in matches {
      matches := matches + [name.value];
    }
  }

  lemma NamedNext(specs: seq<string>, i: nat, udev: Udev)
    requires i < |specs|
    ensures NamedAll(specs[..i], udev) + udev.glob(FullSpec(specs[i], udev)) + Resolved(specs[i], udev) ==
            NamedAll(specs[..i + 1], udev)
  {
    assert specs[..i + 1][..i] == specs[..i];
  }

  /** device_matches. */
  method DeviceMatches(spec: string, disksOnly: bool, udev: Udev) returns (matches: seq<string>)
    ensures matches == Matching(spec, disksOnly, udev)
  {
    matches := [];
    var specs := Split(spec);
    for i := 0 to |specs|
      invariant Found(NamedAll(specs[..i], udev), matches, disksOnly, udev)
    {
      ghost var named := NamedAll(specs[..i], udev);
      var globbed := udev.glob(FullSpec(specs[i], udev));
      matches := AddGlobbed(globbed, disksOnly, udev, matches, named);
      matches := AddResolved(specs[i], disksOnly, udev, matches, named + globbed);
      NamedNext(specs, i, udev);
    }
    assert specs[..|specs|] == specs;
  }

  // ---------------------------------------------------------------- what is found

  lemma {:induction false} DedupKeeps(s: seq<string>)
    ensures forall x :: x in Dedup(s) <==> x in s
    ensures forall i, j :: 0 <= i < j < |Dedup(s)| ==> Dedup(s)[i] != Dedup(s)[j]
  {
    if s != [] {
      DedupKeeps(s[..|s| - 1]);
      assert s == s[..|s| - 1] + [s[|s| - 1]];
    }
  }

  /** No device is found twice. */
  lemma NoDuplicates(spec: string, disksOnly: bool, udev: Udev)
    ensures var m := Matching(spec, disksOnly, udev); forall i, j :: 0 <= i < j < |m| ==> m[i] != m[j]
  {
    DedupKeeps(Kept(NamedAll(Split(spec), udev), disksOnly, udev));
  }

  lemma {:induction false} DedupOfDedups(x: seq<string>, y: seq<string>)
    ensures Dedup(Dedup(x) + Dedup(y)) == Dedup(x + y)
  {
    if y == [] {
      assert Dedup(x) + Dedup(y) == Dedup(x) && x + y == x;
      DedupTwice(x);
    } else {
      var init, last := y[..|y| - 1], y[|y| - 1];
      DedupOfDedups(x, init);
      assert x + y == x + init + [last];
      DedupSnoc(x + init, last);
      DedupKeeps(x + init);
      DedupKeeps(init);
      if last in Dedup(init) {
        assert last in init;
      } else {
        assert Dedup(x) + Dedup(y) == Dedup(x) + Dedup(init) + [last];
        DedupSnoc(Dedup(x) + Dedup(init), last);
      }
    }
  }

  lemma {:induction false} DedupTwice(s: seq<string>)
    ensures Dedup(Dedup(s)) == Dedup(s)
  {
    if s != [] {
      var init, last := s[..|s| - 1], s[|s| - 1];
      DedupTwice(init);
      if last !in Dedup(init) {
        DedupSnoc(Dedup(init), last);
      }
    }
  }

  lemma {:induction false} DisksConcat(x: seq<string>, y: seq<string>, udev: Udev)
    ensures Disks(x + y, udev) == Disks(x, udev) + Disks(y, udev)
  {
    if y == [] {
      assert x + y == x;
    } else {
      assert (x + y)[..|x + y| - 1] == x + y[..|y| - 1];
      DisksConcat(x, y[..|y| - 1], udev);
    }
  }

  lemma {:induction false} NamedConcat(x: seq<string>, y: seq<string>, udev: Udev)
    ensures NamedAll(x + y, udev) == NamedAll(x, udev) + NamedAll(y, udev)
  {
    if y == [] {
      assert x + y == x;
    } else {
      assert (x + y)[..|x + y| - 1] == x + y[..|y| - 1];
      NamedConcat(x, y[..|y| - 1], udev);
    }
  }

  lemma {:induction false} SplitBoth(a: string, b: string, part: string)
    ensures Text.SplitFrom('|', a + (['|'] + b), part) == Text.SplitFrom('|', a, part) + Split(b)
    decreases |a|
  {
    var s := a + (['|'] + b);
    if a == "" {
      assert s == ['|'] + b && s[1..] == b;
    } else {
      assert s[1..] == a[1..] + (['|'] + b);
      if a[0] == '|' {
        SplitBoth(a[1..], b, "");
      } else {
        SplitBoth(a[1..], b, part + [a[0]]);
      }
    }
  }

  /** Specifications are resolved from left to right: the devices for a|b are those for a, then those for b that
      were not found before. */
  lemma LeftToRight(a: string, b: string, disksOnly: bool, udev: Udev)
    ensures Matching(a + (['|'] + b), disksOnly, udev) ==
            Dedup(Matching(a, disksOnly, udev) + Matching(b, disksOnly, udev))
  {
    SplitBoth(a, b, "");
    NamedConcat(Split(a), Split(b), udev);
    DisksConcat(NamedAll(Split(a), udev), NamedAll(Split(b), udev), udev);
    DedupOfDedups(Kept(NamedAll(Split(a), udev), disksOnly, udev), Kept(NamedAll(Split(b), udev), disksOnly, udev));
  }

  lemma {:induction false} DisksIn(s: seq<string>, udev: Udev, x: string)
    ensures x in Disks(s, udev) <==> x in s && udev.isDisk(x)
  {
    if s != [] {
      DisksIn(s[..|s| - 1], udev, x);
      assert s == s[..|s| - 1] + [s[|s| - 1]];
    }
  }

  lemma {:induction false} DisksOfDedup(s: seq<string>, udev: Udev)
    ensures Disks(Dedup(s), udev) == Dedup(Disks(s, udev))
  {
    if s != [] {
      var init, last := s[..|s| - 1], s[|s| - 1];
      DisksOfDedup(init, udev);
      DedupSnoc(Disks(init, udev), last);
      DedupKeeps(init);
      DedupKeeps(Disks(init, udev));
      DisksIn(init, udev, last);
      assert Disks(init, udev) + [] == Disks(init, udev);
      if last !in Dedup(init) {
        assert (Dedup(init) + [last])[..|Dedup(init)|] == Dedup(init);
        assert Disks(Dedup(init), udev) + [] == Disks(Dedup(init), udev);
      }
    }
  }

  /** In disks-only mode exactly the disks of the plain result are found, in the same order. */
  lemma DisksOnly(spec: string, udev: Udev)
    ensures Matching(spec, true, udev) == Disks(Matching(spec, false, udev), udev)
  {
    DisksOfDedup(NamedAll(Split(spec), udev), udev);
  }

  /** A sub-specification stands for a device: the glob of its path gives it, or it resolves to it as it is. */
  predicate StandsFor(spec: string, x: string, udev: Udev) {
    x in udev.glob(if "/dev/" <= spec then spec else udev.normal("/dev/" + spec)) ||
    (x != "" && udev.resolve(spec) == Some(x))
  }

  lemma {:induction false} NamedIff(specs: seq<string>, udev: Udev, x: string)
    ensures x in NamedAll(specs, udev) <==> exists spec :: spec in specs && StandsFor(spec, x, udev)
  {
    if specs != [] {
      var init, last := specs[..|specs| - 1], specs[|specs| - 1];
      assert specs == init + [last];
      NamedIff(init, udev, x);
      assert x in Named(last, udev) <==> StandsFor(last, x, udev);
      assert last in specs;
      if spec :| spec in specs && StandsFor(spec, x, udev) {
        assert spec == last || spec in init;
      }
    }
  }

  /** Found are exactly the devices that some sub-specification stands for, and that are disks in disks-only mode. */
  lemma FoundIff(spec: string, disksOnly: bool, udev: Udev, x: string)
    ensures x in Matching(spec, disksOnly, udev) <==>
            (exists part :: part in Split(spec) && StandsFor(part, x, udev)) && (disksOnly ==> udev.isDisk(x))
  {
    NamedIff(Split(spec), udev, x);
    DedupKeeps(Kept(NamedAll(Split(spec), udev), disksOnly, udev));
    DisksIn(NamedAll(Split(spec), udev), udev, x);
  }

  lemma {:induction false} SplitNone(spec: string, part: string)
    requires '|' !in spec
    ensures Text.SplitFrom('|', spec, part) == [part + spec]
    decreases |spec|
  {
    if spec == "" {
      assert part + spec == part;
    } else {
      assert spec[0] in spec && forall c :: c in spec[1..] ==> c in spec;
      SplitNone(spec[1..], part + [spec[0]]);
      assert part + [spec[0]] + spec[1..] == part + spec;
    }
  }

  /** For a specification without '|': the devices of the glob first, then the resolved one if it is not among them. */
  lemma OneSpec(spec: string, udev: Udev)
    requires '|' !in spec
    ensures var globbed := Dedup(udev.glob(if "/dev/" <= spec then spec else udev.normal("/dev/" + spec)));
            Matching(spec, false, udev) ==
            match udev.resolve(spec)
            case Some(name) => if name == "" || name in globbed then globbed else globbed + [name]
            case None => globbed
  {
    SplitNone(spec, "");
    assert "" + spec == spec;
    var globbed := udev.glob(FullSpec(spec, udev));
    assert [spec][..0] == [];
    assert NamedAll([spec], udev) == [] + Named(spec, udev);
    assert [] + Named(spec, udev) == Named(spec, udev);
    if Resolved(spec, udev) == [] {
      assert globbed + [] == globbed;
    } else {
      DedupSnoc(globbed, udev.resolve(spec).value);
    }
  }
}
