/** Trees of items grow by append and insert into any of their queues: what is built is wired, so it can be run. */
module TreeBuilding {
  import opened Prelude
  import opened TaskTree
  import opened InstallationTasks
  import RunTallies

  /** Where a path of the receiving tree goes when an item is inserted as item c of the queue at r. */
  function Slide(q: Path, r: Path, c: nat): Path {
    if r < q && q[|r|] >= c then q[|r| := q[|r|] + 1] else q
  }

  function Unslide(p: Path, r: Path, c: nat): Path {
    if r < p && p[|r|] > c then p[|r| := p[|r|] - 1] else p
  }

  function Inserted(t: Tree, c: nat, v: Tree): Tree
    requires t.Queue? && c <= |t.items|
  {
    Queue(t.name, t.items[..c] + [v] + t.items[c..])
  }

  /** A queue that can take an item at index c. */
  predicate Takes(t: Tree, r: Path, c: nat) {
    Has(t, r) && Sub(t, r).Queue? && c <= |Sub(t, r).items|
  }

  /** The tree t with v inserted as item c of its queue at r. */
  function Grown(t: Tree, r: Path, c: nat, v: Tree): (g: Tree)
    requires Takes(t, r, c)
    ensures g.Queue? && g.name == t.name
    decreases r
  {
    if r == [] then Inserted(t, c, v)
    else Queue(t.name, t.items[r[0] := Grown(t.items[r[0]], r[1..], c, v)])
  }

  /** The same node, but for its items, of which there may be more. */
  predicate SameNode(n: Tree, m: Tree, more: nat) {
    && n.name == m.name && n.Queue? == m.Queue?
    && (n.Task? ==> n.work == m.work) && (n.Queue? ==> |n.items| == |m.items| + more)
  }

  lemma {:induction false} SlideSub(t: Tree, r: Path, c: nat, v: Tree, q: Path)
    requires Takes(t, r, c)
    ensures Has(Grown(t, r, c, v), Slide(q, r, c)) <==> Has(t, q)
    ensures Has(t, q) ==> SameNode(Sub(Grown(t, r, c, v), Slide(q, r, c)), Sub(t, q), if q == r then 1 else 0)
    decreases r
  {
    if r == [] {
      SlideTop(t, c, v, q);
    } else if q != [] && q[0] == r[0] {
      SlideTail(q, r, c);
      SlideSub(t.items[r[0]], r[1..], c, v, q[1..]);
    }
  }

  lemma SlideTop(t: Tree, c: nat, v: Tree, q: Path)
    requires Takes(t, [], c)
    ensures Has(Inserted(t, c, v), Slide(q, [], c)) <==> Has(t, q)
    ensures Has(t, q) && q != [] ==> Sub(Inserted(t, c, v), Slide(q, [], c)) == Sub(t, q)
  {
    if q != [] {
      assert Slide(q, [], c)[1..] == q[1..];
    }
  }

  lemma SlideTail(q: Path, r: Path, c: nat)
    requires q != [] && r != [] && q[0] == r[0]
    ensures Slide(q, r, c) != [] && Slide(q, r, c)[0] == q[0]
    ensures Slide(q, r, c)[1..] == Slide(q[1..], r[1..], c)
    ensures q == r <==> q[1..] == r[1..]
  {
    assert q == [q[0]] + q[1..] && r == [r[0]] + r[1..];
    assert r < q <==> r[1..] < q[1..];
  }

  lemma {:induction false} InsertedSub(t: Tree, r: Path, c: nat, v: Tree, q: Path)
    requires Takes(t, r, c)
    ensures Has(Grown(t, r, c, v), r + [c] + q) <==> Has(v, q)
    ensures Has(v, q) ==> Sub(Grown(t, r, c, v), r + [c] + q) == Sub(v, q)
    decreases r
  {
    if r == [] {
      assert ([] + [c] + q)[1..] == q;
    } else {
      assert (r + [c] + q)[1..] == r[1..] + [c] + q;
      InsertedSub(t.items[r[0]], r[1..], c, v, q);
    }
  }

  lemma SlideChild(q: Path, r: Path, c: nat, i: nat)
    requires q != r
    ensures Slide(q + [i], r, c) == Slide(q, r, c) + [i]
    ensures q != [] ==> Slide(q, r, c) != [] && Front(Slide(q, r, c)) == Slide(Front(q), r, c)
  {
    if r < q {
      assert (q + [i])[..|r|] == q[..|r|];
    }
    if q != [] {
      AtOrAbove(r, q);
    }
  }

  lemma SlideUnslide(p: Path, r: Path, c: nat)
    requires !(r + [c] <= p)
    ensures Slide(Unslide(p, r, c), r, c) == p
  {
  }

  lemma UnslideSlide(q: Path, r: Path, c: nat)
    ensures Unslide(Slide(q, r, c), r, c) == q
    ensures !(r + [c] <= Slide(q, r, c))
  {
  }

  /** Inserting the tree e.v as item e.c of the queue at e.r of e.w gives e.u. */
  datatype Insertion = Insertion(w: World, v: World, r: Path, c: nat, u: World) {
    function At(): Path {
      r + [c]
    }
  }

  datatype Spot = Spot(e: Insertion, q: Path)

  /** The object at p in the grown tree comes from one of the two trees. */
  ghost predicate ComesFrom(e: Insertion, p: Path) {
    if e.At() <= p
    then (p in e.u.at <==> p[|e.r| + 1..] in e.v.at) &&
         (p in e.u.at ==> e.u.at[p] == e.v.at[p[|e.r| + 1..]] && e.u.at[p] in e.u.place &&
                          (e.u.at[p] in e.v.place ==> e.u.place[e.u.at[p]] == e.At() + e.v.place[e.u.at[p]]))
    else (p in e.u.at <==> Unslide(p, e.r, e.c) in e.w.at) &&
         (p in e.u.at ==> e.u.at[p] == e.w.at[Unslide(p, e.r, e.c)] && e.u.at[p] in e.u.place &&
                          (e.u.at[p] in e.w.place ==> e.u.place[e.u.at[p]] == Slide(e.w.place[e.u.at[p]], e.r, e.c)))
  }

  ghost predicate Joins(e: Insertion) {
    && Takes(e.w.t, e.r, e.c) && e.r in e.w.at && [] in e.v.at
    && e.u.t == Grown(e.w.t, e.r, e.c, e.v.t)
    && forall p: Path {:trigger ComesFrom(e, p)} :: ComesFrom(e, p)
  }

  /** An item stayed where it was. */
  twostate predicate Stayed(x: Item)
    reads x
  {
    old(x.parent) == x.parent && old(x.list) == x.list
  }

  /** A signal kept its methods. */
  twostate predicate Kept(x: Item, k: Kind)
    reads x.SignalOf(k)
  {
    old(x.SignalOf(k).owner) == x.SignalOf(k).owner && old(x.SignalOf(k).methods) == x.SignalOf(k).methods
  }

  /** A signal that had no parent signal to relay to now relays to the one of `queue`. */
  twostate predicate Moved(item: Item, queue: Item, k: Kind)
    reads item.SignalOf(k)
  {
    && old(item.SignalOf(k).owner) == item.SignalOf(k).owner
    && item.SignalOf(k).methods == if item.Relays(k) then Rewired(item, k, null, queue, old(item.SignalOf(k).methods))
                                   else old(item.SignalOf(k).methods)
  }

  /** The item at the root of e.v was inserted as item e.c of the queue at e.r. */
  twostate predicate WasInserted(e: Insertion)
    reads e.w.at.Values, e.v.at.Values, SignalsOf(e.w.at.Values), SignalsOf(e.v.at.Values)
  {
    && Joins(e)
    && var queue: Item := e.w.at[e.r];
       var item: Item := e.v.at[[]];
       && e.c <= |old(queue.list)| && queue.list == old(queue.list)[..e.c] + [item] + old(queue.list)[e.c..]
       && queue.parent == old(queue.parent) && item.parent == queue && item.list == old(item.list)
       && (forall x {:trigger Stayed(x)} | x in e.w.at.Values && x != queue :: Stayed(x))
       && (forall x {:trigger Stayed(x)} | x in e.v.at.Values && x != item :: Stayed(x))
       && (forall x, k: Kind {:trigger Kept(x, k)} | x in e.w.at.Values :: Kept(x, k))
       && (forall x, k: Kind {:trigger Kept(x, k)} | x in e.v.at.Values && x != item :: Kept(x, k))
       && (forall k: Kind {:trigger Moved(item, queue, k)} :: Moved(item, queue, k))
  }

  twostate lemma InsertWires(e: Insertion)
    requires old(Wired(e.w) && Wired(e.v)) && WasInserted(e)
    ensures Wired(e.u)
  {
    forall p: Path ensures p in e.u.at <==> Has(e.u.t, p) {
      PathOfGrown(e, p);
    }
    forall p: Path {:trigger LocallyWired(e.u, p, e.u.at[p])} | p in e.u.at ensures LocallyWired(e.u, p, e.u.at[p]) {
      PathOfGrown(e, p);
      if e.At() <= p {
        InsertedWires(Spot(e, p[|e.r| + 1..]));
      } else if p == e.r {
        QueueWires(e);
      } else {
        SlideUnslide(p, e.r, e.c);
        BesideWires(Spot(e, Unslide(p, e.r, e.c)));
      }
    }
  }

  /** A path of the grown tree is one of the inserted tree or one of the receiving tree. */
  lemma PathOfGrown(e: Insertion, p: Path)
    requires Joins(e)
    requires forall q: Path :: q in e.w.at <==> Has(e.w.t, q)
    requires forall q: Path :: q in e.v.at <==> Has(e.v.t, q)
    ensures p in e.u.at <==> Has(e.u.t, p)
    ensures if e.At() <= p then e.At() + p[|e.r| + 1..] == p && (p in e.u.at <==> p[|e.r| + 1..] in e.v.at)
            else p in e.u.at <==> Unslide(p, e.r, e.c) in e.w.at
  {
    assert ComesFrom(e, p);
    if e.At() <= p {
      assert e.At() + p[|e.r| + 1..] == p;
      InsertedSub(e.w.t, e.r, e.c, e.v.t, p[|e.r| + 1..]);
    } else {
      SlideUnslide(p, e.r, e.c);
      SlideSub(e.w.t, e.r, e.c, e.v.t, Unslide(p, e.r, e.c));
    }
  }

  /** Where the paths of the receiving tree went. */
  lemma BesidePaths(e: Insertion, q: Path)
    requires Joins(e) && q in e.w.at
    ensures Slide(q, e.r, e.c) in e.u.at && e.u.at[Slide(q, e.r, e.c)] == e.w.at[q]
    ensures e.w.at[q] in e.u.place
    ensures e.w.at[q] in e.w.place ==> e.u.place[e.w.at[q]] == Slide(e.w.place[e.w.at[q]], e.r, e.c)
  {
    UnslideSlide(q, e.r, e.c);
    assert ComesFrom(e, Slide(q, e.r, e.c));
  }

  /** Where the paths of the inserted tree went. */
  lemma InsertedPaths(e: Insertion, q: Path)
    requires Joins(e) && q in e.v.at
    ensures e.At() + q in e.u.at && e.u.at[e.At() + q] == e.v.at[q]
    ensures e.v.at[q] in e.u.place
    ensures e.v.at[q] in e.v.place ==> e.u.place[e.v.at[q]] == e.At() + e.v.place[e.v.at[q]]
  {
    assert (e.At() + q)[|e.r| + 1..] == q;
    assert ComesFrom(e, e.At() + q);
  }

  /** The receiving queue. */
  twostate lemma QueueWires(e: Insertion)
    requires old(Wired(e.w) && Wired(e.v)) && WasInserted(e)
    ensures e.r in e.u.at && Has(e.u.t, e.r) && LocallyWired(e.u, e.r, e.u.at[e.r])
  {
    var r, queue := e.r, e.w.at[e.r];
    assert old(LocallyWired(e.w, r, queue));
    assert queue in e.w.at.Values;
    BesidePaths(e, r);
    SlideSub(e.w.t, r, e.c, e.v.t, r);
    if r != [] {
      BesidePaths(e, Front(r));
    }
    forall i: nat | i < |queue.list| ensures r + [i] in e.u.at && queue.list[i] == e.u.at[r + [i]] {
      ItemOfQueue(e, i);
      if i < e.c {
        assert r + [i] in e.w.at;
      } else if i > e.c {
        assert r + [i - 1] in e.w.at;
      }
    }
    forall k: Kind ensures SignalWired(queue, k) {
      assert old(SignalWired(queue, k));
      assert Kept(queue, k);
    }
  }

  lemma ItemOfQueue(e: Insertion, i: nat)
    requires Joins(e)
    ensures i < e.c && e.r + [i] in e.w.at ==> e.r + [i] in e.u.at && e.u.at[e.r + [i]] == e.w.at[e.r + [i]]
    ensures i == e.c ==> e.r + [i] in e.u.at && e.u.at[e.r + [i]] == e.v.at[[]]
    ensures i > e.c && e.r + [i - 1] in e.w.at ==> e.r + [i] in e.u.at && e.u.at[e.r + [i]] == e.w.at[e.r + [i - 1]]
  {
    if i < e.c && e.r + [i] in e.w.at {
      BesidePaths(e, e.r + [i]);
    } else if i == e.c {
      InsertedPaths(e, []);
      assert e.At() + [] == e.r + [i];
    } else if i > e.c && e.r + [i - 1] in e.w.at {
      BesidePaths(e, e.r + [i - 1]);
      assert Slide(e.r + [i - 1], e.r, e.c) == e.r + [i];
    }
  }

  /** The other items that were in the receiving tree before. */
  twostate lemma BesideWires(s: Spot)
    requires old(Wired(s.e.w) && Wired(s.e.v)) && WasInserted(s.e)
    requires s.q in s.e.w.at && s.q != s.e.r
    ensures var p := Slide(s.q, s.e.r, s.e.c);
            p in s.e.u.at && Has(s.e.u.t, p) && LocallyWired(s.e.u, p, s.e.u.at[p])
  {
    var w, q, u := s.e.w, s.q, s.e.u;
    var x := w.at[q];
    var p := Slide(q, s.e.r, s.e.c);
    assert old(LocallyWired(w, q, x)) && old(LocallyWired(w, s.e.r, w.at[s.e.r]));
    assert x in w.at.Values && Stayed(x);
    SlideSub(w.t, s.e.r, s.e.c, s.e.v.t, q);
    BesidePaths(s.e, q);
    SlideChild(q, s.e.r, s.e.c, 0);
    if q != [] {
      BesidePaths(s.e, Front(q));
    }
    forall i: nat | i < |x.list| && x.isQueue ensures p + [i] in u.at && x.list[i] == u.at[p + [i]] {
      assert q + [i] in w.at;
      BesidePaths(s.e, q + [i]);
      SlideChild(q, s.e.r, s.e.c, i);
    }
    forall k: Kind ensures SignalWired(x, k) {
      assert old(SignalWired(x, k));
      assert Kept(x, k);
    }
  }

  /** The inserted item and what is below it. */
  twostate lemma InsertedWires(s: Spot)
    requires old(Wired(s.e.w) && Wired(s.e.v)) && WasInserted(s.e)
    requires s.q in s.e.v.at
    ensures var p := s.e.At() + s.q;
            p in s.e.u.at && Has(s.e.u.t, p) && LocallyWired(s.e.u, p, s.e.u.at[p])
  {
    var v, q, u := s.e.v, s.q, s.e.u;
    var x := v.at[q];
    var p := s.e.At() + q;
    assert old(LocallyWired(v, q, x)) && old(LocallyWired(v, [], v.at[[]]));
    assert x in v.at.Values;
    InsertedSub(s.e.w.t, s.e.r, s.e.c, v.t, q);
    InsertedPaths(s.e, q);
    if q == [] {
      assert Front(p) == s.e.r;
      BesidePaths(s.e, s.e.r);
    } else {
      assert Front(p) == s.e.At() + Front(q);
      InsertedPaths(s.e, Front(q));
      assert x != v.at[[]];
      assert Stayed(x);
    }
    forall i: nat | i < |x.list| && x.isQueue ensures p + [i] in u.at && x.list[i] == u.at[p + [i]] {
      assert q + [i] in v.at;
      assert p + [i] == s.e.At() + (q + [i]);
      InsertedPaths(s.e, q + [i]);
    }
    forall k: Kind ensures SignalWired(x, k) {
      assert old(SignalWired(x, k));
      if q == [] {
        assert Moved(x, s.e.w.at[s.e.r], k);
      } else {
        assert Kept(x, k);
      }
    }
  }

  // ---------------------------------------------------------------- growing a tree

  ghost predicate Placed(w: World) {
    forall p: Path :: p in w.at ==> w.at[p] in w.place && w.place[w.at[p]] == p
  }

  lemma WiredPlaced(w: World)
    requires Wired(w)
    ensures Placed(w) && [] in w.at
  {
    forall p: Path | p in w.at ensures w.at[p] in w.place && w.place[w.at[p]] == p {
      LocalWiring(w, p);
    }
    assert Has(w.t, []);
  }

  function Origin(w: World, v: World, r: Path, c: nat, p: Path): Option<Item> {
    if r + [c] <= p then (if p[|r| + 1..] in v.at then Some(v.at[p[|r| + 1..]]) else None)
    else (if Unslide(p, r, c) in w.at then Some(w.at[Unslide(p, r, c)]) else None)
  }

  lemma JoinedKeys(w: World, v: World, r: Path, c: nat, keys: set<Path>)
    requires keys == (set q | q in w.at :: Slide(q, r, c)) + (set q | q in v.at :: r + [c] + q)
    ensures forall p: Path :: p in keys <==> Origin(w, v, r, c, p).Some?
  {
    forall p: Path ensures p in keys <==> Origin(w, v, r, c, p).Some? {
      if r + [c] <= p {
        assert r + [c] + p[|r| + 1..] == p;
        forall q | q in w.at ensures Slide(q, r, c) != p {
          UnslideSlide(q, r, c);
        }
        forall q | q in v.at && r + [c] + q == p ensures q == p[|r| + 1..] {
        }
      } else {
        SlideUnslide(p, r, c);
        forall q | q in w.at && Slide(q, r, c) == p ensures q == Unslide(p, r, c) {
          UnslideSlide(q, r, c);
        }
      }
    }
  }

  lemma Join(w: World, v: World, r: Path, c: nat) returns (u: World)
    requires Takes(w.t, r, c) && r in w.at && [] in v.at
    requires Placed(w) && Placed(v) && w.at.Values !! v.at.Values
    ensures Joins(Insertion(w, v, r, c, u)) && u.journal == w.journal
    ensures u.at.Values == w.at.Values + v.at.Values
  {
    var keys := (set q | q in w.at :: Slide(q, r, c)) + (set q | q in v.at :: r + [c] + q);
    JoinedKeys(w, v, r, c, keys);
    var at := map p: Path | p in keys :: Origin(w, v, r, c, p).value;
    var place := map x | x in w.at.Values + v.at.Values ::
                   if x in v.at.Values then r + [c] + v.place[x] else Slide(w.place[x], r, c);
    u := World(Grown(w.t, r, c, v.t), at, place, w.journal);
    var e := Insertion(w, v, r, c, u);
    forall p: Path ensures ComesFrom(e, p) {
      assert p in keys <==> Origin(w, v, r, c, p).Some?;
    }
    JoinedValues(e);
  }

  lemma JoinedValues(e: Insertion)
    requires Joins(e)
    ensures e.u.at.Values == e.w.at.Values + e.v.at.Values
  {
    forall x | x in e.u.at.Values ensures x in e.w.at.Values + e.v.at.Values {
      var p :| p in e.u.at && e.u.at[p] == x;
      assert ComesFrom(e, p);
    }
    forall x | x in e.w.at.Values ensures x in e.u.at.Values {
      var q :| q in e.w.at && e.w.at[q] == x;
      BesidePaths(e, q);
    }
    forall x | x in e.v.at.Values ensures x in e.u.at.Values {
      var q :| q in e.v.at && e.v.at[q] == x;
      InsertedPaths(e, q);
    }
  }

  /** An item that was never started. */
  ghost predicate Untouched(x: Item)
    reads x`running, x`done, x`taskNumber, x`queueNumber
  {
    !x.running && !x.done && x.taskNumber == None && x.queueNumber == None
  }

  ghost predicate AllUntouched(w: World)
    reads w.at.Values`running, w.at.Values`done, w.at.Values`taskNumber, w.at.Values`queueNumber
  {
    forall x | x in w.at.Values :: Untouched(x)
  }

  /** Insert a whole tree into any queue of another. */
  method InsertTree(queue: Item, index: int, item: Item, ghost w: World, ghost r: Path, ghost v: World)
    returns (ghost u: World)
    requires Wired(w) && r in w.at && queue == w.at[r] && queue.isQueue
    requires Wired(v) && [] in v.at && item == v.at[[]] && w.at.Values !! v.at.Values
    modifies queue`list, item`parent, item.Signals()`methods, item.Signals()`functions
    ensures Takes(w.t, r, 0) && u.t == Grown(w.t, r, Clamp(index, |Sub(w.t, r).items|), v.t)
    ensures Wired(u) && r in u.at && u.at[r] == queue && u.journal == w.journal
    ensures u.at.Values == w.at.Values + v.at.Values
  {
    assert LocallyWired(w, r, queue);
    ghost var e := Planned(w, v, r, Clamp(index, |queue.list|));
    u := e.u;
    InsertItem(queue, index, item, e);
    InsertWires(e);
    BesidePaths(e, r);
  }

  /** Append a whole tree to any queue of another. */
  method AppendTree(queue: Item, item: Item, ghost w: World, ghost r: Path, ghost v: World) returns (ghost u: World)
    requires Wired(w) && r in w.at && queue == w.at[r] && queue.isQueue
    requires Wired(v) && [] in v.at && item == v.at[[]] && w.at.Values !! v.at.Values
    modifies queue`list, item`parent, item.Signals()`methods, item.Signals()`functions
    ensures Takes(w.t, r, 0) && u.t == Grown(w.t, r, |Sub(w.t, r).items|, v.t)
    ensures Wired(u) && r in u.at && u.at[r] == queue && u.journal == w.journal
    ensures u.at.Values == w.at.Values + v.at.Values
  {
    assert LocallyWired(w, r, queue);
    ghost var e := Planned(w, v, r, |queue.list|);
    u := e.u;
    AppendItem(queue, item, e);
    InsertWires(e);
    BesidePaths(e, r);
  }

  lemma Planned(w: World, v: World, r: Path, c: nat) returns (e: Insertion)
    requires Wired(w) && r in w.at && w.at[r].isQueue && c <= |w.at[r].list|
    requires Wired(v) && [] in v.at && w.at.Values !! v.at.Values
    ensures Joins(e) && e.w == w && e.v == v && e.r == r && e.c == c && e.u.journal == w.journal
    ensures e.u.at.Values == w.at.Values + v.at.Values
    ensures OwnsSignals(e) && v.at[[]].parent == null
  {
    WiredPlaced(w);
    WiredPlaced(v);
    assert LocallyWired(w, r, w.at[r]) && LocallyWired(v, [], v.at[[]]);
    var u := Join(w, v, r, c);
    e := Insertion(w, v, r, c, u);
    OwnedSignals(w, v);
  }

  /** No other item shares a signal with the one that is inserted. */
  ghost predicate OwnsSignals(e: Insertion) {
    && e.w.at.Values !! e.v.at.Values && e.r in e.w.at && [] in e.v.at
    && e.w.at[e.r] in e.w.at.Values && e.v.at[[]] in e.v.at.Values
    && e.v.at[[]].Labelled()
    && forall x, k: Kind {:trigger x.SignalOf(k)} | x in e.w.at.Values + e.v.at.Values && x != e.v.at[[]] ::
         x.SignalOf(k) !in e.v.at[[]].Signals()
  }

  method InsertItem(queue: Item, index: int, item: Item, ghost e: Insertion)
    requires Joins(e) && queue == e.w.at[e.r] && item == e.v.at[[]] && e.c == Clamp(index, |queue.list|)
    requires item.parent == null && OwnsSignals(e)
    modifies queue`list, item`parent, item.Signals()`methods, item.Signals()`functions
    ensures WasInserted(e)
  {
    queue.Insert(index, item);
    forall x, k: Kind {:trigger Kept(x, k)} | x in e.w.at.Values || (x in e.v.at.Values && x != item)
      ensures Kept(x, k)
    {
      assert x in e.w.at.Values + e.v.at.Values && x != item;
    }
    forall k: Kind {:trigger Moved(item, queue, k)} ensures Moved(item, queue, k) {
    }
  }

  method AppendItem(queue: Item, item: Item, ghost e: Insertion)
    requires Joins(e) && queue == e.w.at[e.r] && item == e.v.at[[]] && e.c == |queue.list|
    requires item.parent == null && OwnsSignals(e)
    modifies queue`list, item`parent, item.Signals()`methods, item.Signals()`functions
    ensures WasInserted(e)
  {
    queue.Append(item);
    forall x, k: Kind {:trigger Kept(x, k)} | x in e.w.at.Values || (x in e.v.at.Values && x != item)
      ensures Kept(x, k)
    {
      assert x in e.w.at.Values + e.v.at.Values && x != item;
    }
    forall k: Kind {:trigger Moved(item, queue, k)} ensures Moved(item, queue, k) {
    }
  }

  lemma SignalOwner(w: World, x: Item, k: Kind)
    requires Wired(w) && x in w.at.Values
    ensures x.SignalOf(k).owner == x && x.SignalOf(k).kind == k
  {
    var p :| p in w.at && w.at[p] == x;
    assert LocallyWired(w, p, x);
    assert SignalWired(x, k);
  }

  /** The signals of the inserted item belong to no other item. */
  lemma OwnedSignals(w: World, v: World)
    requires Wired(w) && Wired(v) && [] in v.at
    ensures v.at[[]].Labelled()
    ensures forall x, k: Kind {:trigger x.SignalOf(k)} | x in w.at.Values + v.at.Values &&
        x != v.at[[]] :: x.SignalOf(k) !in v.at[[]].Signals()
  {
    var item := v.at[[]];
    assert item in v.at.Values;
    forall k: Kind ensures item.SignalOf(k).owner == item && item.SignalOf(k).kind == k {
      SignalOwner(v, item, k);
    }
    assert item.SignalOf(Started).kind == Started && item.SignalOf(Completed).kind == Completed;
    assert item.SignalOf(QueueStarted).kind == QueueStarted && item.SignalOf(QueueCompleted).kind == QueueCompleted;
    assert item.SignalOf(TaskStarted).kind == TaskStarted && item.SignalOf(TaskCompleted).kind == TaskCompleted;
    forall x, k: Kind | x in w.at.Values + v.at.Values && x != item ensures x.SignalOf(k) !in item.Signals() {
      SignalOwner(if x in w.at.Values then w else v, x, k);
    }
  }

  ghost predicate FreshTree(w: World, t: Tree, x: Item, journal: Journal)
    reads w.at.Values, SignalsOf(w.at.Values)
  {
    Wired(w) && AllUntouched(w) && w.t == t && [] in w.at && w.at[[]] == x && w.journal == journal
  }

  /** A single new item is a tree. */
  method NewItem(isQueue: bool, name: string, work: Work, ghost journal: Journal) returns (x: Item, ghost w: World)
    ensures FreshTree(w, if isQueue then Queue(name, []) else Task(name, work), x, journal)
    ensures w.at.Values == {x} && fresh(x) && fresh(SignalsOf({x}))
  {
    x := new Item(isQueue, name, work);
    w := World(if isQueue then Queue(name, []) else Task(name, work), map[[] := x], map[x := []], journal);
    forall k: Kind ensures SignalWired(x, k) {
      assert x.SignalOf(k).kind == k;
    }
    assert LocallyWired(w, [], x);
  }

  /** Any tree of tasks and queues is built by creating its items and appending them bottom-up. */
  method Build(t: Tree, ghost journal: Journal) returns (x: Item, ghost w: World)
    ensures FreshTree(w, t, x, journal)
    ensures fresh(w.at.Values) && fresh(SignalsOf(w.at.Values))
    decreases t, 0
  {
    match t
    case Task(name, work) =>
      x, w := NewItem(false, name, work, journal);
    case Queue(name, items) =>
      x, w := NewItem(true, name, NotSet, journal);
      w := BuildItems(x, items, w);
  }

  method BuildItems(root: Item, items: seq<Tree>, ghost w: World) returns (ghost u: World)
    requires w.t.Queue? && w.t.items == [] && FreshTree(w, w.t, root, w.journal)
    modifies root`list
    ensures FreshTree(u, Queue(w.t.name, items), root, w.journal)
    ensures fresh(u.at.Values - w.at.Values) && fresh(SignalsOf(u.at.Values) - SignalsOf(w.at.Values))
    decreases items
  {
    u := w;
    for i := 0 to |items|
      invariant FreshTree(u, Queue(w.t.name, items[..i]), root, w.journal)
      invariant fresh(u.at.Values - w.at.Values) && fresh(SignalsOf(u.at.Values) - SignalsOf(w.at.Values))
    {
      u := BuildItem(root, items[i], u);
      assert items[..i] + [items[i]] == items[..i + 1];
    }
    assert items[..|items|] == items;
  }

  method BuildItem(root: Item, t: Tree, ghost w: World) returns (ghost u: World)
    requires FreshTree(w, w.t, root, w.journal) && w.t.Queue?
    modifies root`list
    ensures FreshTree(u, Queue(w.t.name, w.t.items + [t]), root, w.journal)
    ensures fresh(u.at.Values - w.at.Values) && fresh(SignalsOf(u.at.Values) - SignalsOf(w.at.Values))
    decreases t, 1
  {
    var item, v := Build(t, w.journal);
    StillWired(w);
    OwnSignals(item, v.at.Values);
    u := AppendToTop(root, item, w, v);
  }

  method AppendToTop(root: Item, item: Item, ghost w: World, ghost v: World) returns (ghost u: World)
    requires FreshTree(w, w.t, root, w.journal) && w.t.Queue?
    requires FreshTree(v, v.t, item, w.journal) && w.at.Values !! v.at.Values
    modifies root`list, item`parent, item.Signals()`methods, item.Signals()`functions
    ensures FreshTree(u, Queue(w.t.name, w.t.items + [v.t]), root, w.journal)
    ensures u.at.Values == w.at.Values + v.at.Values
    ensures SignalsOf(u.at.Values) == SignalsOf(w.at.Values) + SignalsOf(v.at.Values)
  {
    SignalsOfUnion(w.at.Values, v.at.Values);
    assert LocallyWired(w, [], root);
    u := AppendTree(root, item, w, [], v);
    assert Grown(w.t, [], |w.t.items|, v.t).items == w.t.items + [v.t];
  }

  lemma OwnSignals(x: Item, items: set<Item>)
    requires x in items
    ensures x.Signals() <= SignalsOf(items)
  {
    assert x.SignalOf(Started) in SignalsOf(items) && x.SignalOf(Completed) in SignalsOf(items);
    assert x.SignalOf(QueueStarted) in SignalsOf(items) && x.SignalOf(QueueCompleted) in SignalsOf(items);
    assert x.SignalOf(TaskStarted) in SignalsOf(items) && x.SignalOf(TaskCompleted) in SignalsOf(items);
  }

  lemma SignalsOfUnion(a: set<Item>, b: set<Item>)
    ensures SignalsOf(a + b) == SignalsOf(a) + SignalsOf(b)
  {
    forall s | s in SignalsOf(a) + SignalsOf(b) ensures s in SignalsOf(a + b) {
      var x: Item, k: Kind :| (x in a || x in b) && s == x.SignalOf(k);
      assert x in a + b;
    }
  }

  /** Build a tree, then start it from the top: what is emitted and where it stops are those of the tree. */
  method BuildAndStart(t: Tree, ghost journal: Journal) returns (x: Item, ok: bool, ghost w: World)
    requires journal.events == []
    modifies journal
    ensures Wired(w) && w.t == t && [] in w.at && w.at[[]] == x
    ensures Numbered(w, journal.events)
    ensures ok == (Halt(t, true) == None)
    ensures journal.events == Trace(t, [], true)
    ensures ok ==> forall q: Path :: q in w.at ==> Shows(w.at[q], Done)
    ensures !ok ==> Stopped(w, Halt(t, true).value)
    ensures AllCount(w, Uncounted(t, []))
  {
    x, w := Build(t, journal);
    ok := StartTop(x, t, w);
  }

  /** Start a tree that was never started from the top. */
  method StartTop(x: Item, ghost t: Tree, ghost w: World) returns (ok: bool)
    requires FreshTree(w, t, x, w.journal) && w.journal.events == []
    modifies w.at.Values`running, w.at.Values`done, w.at.Values`taskNumber, w.at.Values`queueNumber, w.journal`events
    ensures Wired(w) && Numbered(w, w.journal.events)
    ensures ok == (Halt(t, true) == None)
    ensures w.journal.events == Trace(t, [], true)
    ensures ok ==> forall q: Path :: q in w.at ==> Shows(w.at[q], Done)
    ensures !ok ==> Stopped(w, Halt(t, true).value)
    ensures AllCount(w, Uncounted(t, []))
  {
    Untouched0(w);
    ok := x.Start(w, []);
    if ok {
      forall q: Path | q in w.at ensures Shows(w.at[q], Done) {
        assert Leaving(q, []) == Done;
      }
    } else {
      assert [] + Halt(t, true).value == Halt(t, true).value;
    }
  }

  lemma Untouched0(w: World)
    requires Wired(w) && AllUntouched(w) && w.journal.events == []
    ensures Numbered(w, []) && [] in w.at && Startable(w, [])
  {
    RunTallies.TallyStart(w.t);
    assert Has(w.t, []);
    forall p: Path | p in w.at ensures NumbersAt(w, [], p) && Shows(w.at[p], Entering(p, [])) {
      assert w.at[p] in w.at.Values;
      assert Untouched(w.at[p]);
    }
  }
}
