/**
 The level-by-level search for exposed fields. The functions describe one level of the
 queue; the method runs the search in place; the lemmas prove that the queue finds every
 struct at its shortest embedding depth, along its first shortest path.
 */
module FieldSearch {
  import opened Options
  import opened Sorting
  import opened TypeGraph

  /** A queue entry: a struct and the embedding path it was found by. */
  datatype Item = Item(typ: nat, path: seq<nat>)

  // ----- one level of the queue

  /** The struct one field embeds, as a queue entry. */
  function ExpandAt(u: Universe, it: Item, i: nat): seq<Item>
    requires it.typ < |u.structs|
  {
    var e := EmbedAt(u, it.typ, i);
    if e.Some? then [Item(e.value, it.path + [i])] else []
  }

  /** The structs embedded by the first n fields of an item's struct. */
  function Expand(u: Universe, it: Item, n: nat): seq<Item>
    requires it.typ < |u.structs|
  {
    if n == 0 then [] else Expand(u, it, n - 1) + ExpandAt(u, it, n - 1)
  }

  ghost predicate InUniverse(u: Universe, items: seq<Item>) {
    forall k :: 0 <= k < |items| ==> items[k].typ < |u.structs|
  }

  /** Every embedding made by the structs of these items, in the order they are met. */
  function Occurrences(u: Universe, items: seq<Item>): seq<Item>
    requires InUniverse(u, items)
  {
    if items == [] then []
    else
      var last := items[|items| - 1];
      Occurrences(u, items[..|items| - 1]) + Expand(u, last, |u.structs[last.typ]|)
  }

  /** The items whose struct was not expanded before. */
  function Unvisited(items: seq<Item>, visited: set<nat>): seq<Item> {
    if items == [] then []
    else
      var last := items[|items| - 1];
      Unvisited(items[..|items| - 1], visited) + (if last.typ in visited then [] else [last])
  }

  predicate Names(items: seq<Item>, t: nat) {
    exists k :: 0 <= k < |items| && items[k].typ == t
  }

  /** The first occurrence of each struct: what the next level's queue holds. */
  function FirstOf(items: seq<Item>): seq<Item> {
    if items == [] then []
    else
      var before, last := items[..|items| - 1], items[|items| - 1];
      FirstOf(before) + (if Names(before, last.typ) then [] else [last])
  }

  function CountOf(items: seq<Item>, t: nat): nat {
    if items == [] then 0
    else CountOf(items[..|items| - 1], t) + (if items[|items| - 1].typ == t then 1 else 0)
  }

  function Looked(counts: map<nat, nat>, t: nat): nat {
    if t in counts then counts[t] else 0
  }

  /** The candidate of one field, twice if its struct is doubled. */
  function EmitAt(u: Universe, it: Item, twice: bool, i: nat): seq<Candidate>
    requires it.typ < |u.structs|
  {
    if !Exposed(u, it.typ, i) then []
    else
      var c := CandidateOf(u.structs[it.typ][i], it.path + [i], |it.path|);
      if twice then [c, c] else [c]
  }

  /** The candidates of the first n fields of an item's struct. */
  function Emit(u: Universe, it: Item, twice: bool, n: nat): seq<Candidate>
    requires it.typ < |u.structs|
  {
    if n == 0 then [] else Emit(u, it, twice, n - 1) + EmitAt(u, it, twice, n - 1)
  }

  function Emitted(u: Universe, items: seq<Item>, counts: map<nat, nat>): seq<Candidate>
    requires InUniverse(u, items)
  {
    if items == [] then []
    else
      var last := items[|items| - 1];
      Emitted(u, items[..|items| - 1], counts) + Emit(u, last, Looked(counts, last.typ) > 1, |u.structs[last.typ]|)
  }

  /** What the type check says of one field; a field that is not exposed is not checked. */
  function VerdictAt(u: Universe, stack: nat, t: nat, i: nat): Option<bool>
    requires t < |u.structs|
  {
    if Exposed(u, t, i) then Verdict(u, u.structs[t][i].typ, stack) else Some(true)
  }

  /** The first n fields of a struct all pass. */
  predicate AllSupported(u: Universe, stack: nat, t: nat, n: nat)
    requires t < |u.structs|
  {
    forall i :: 0 <= i < n ==> VerdictAt(u, stack, t, i) == Some(true)
  }

  /** Field i of a struct is the first that does not pass, and this is its verdict. */
  ghost predicate StopsIn(u: Universe, stack: nat, t: nat, i: nat, why: Option<bool>)
    requires t < |u.structs|
  {
    i < |u.structs[t]| && AllSupported(u, stack, t, i) && why == VerdictAt(u, stack, t, i) != Some(true)
  }

  // ----- membership in a level

  lemma {:induction false} InExpand(u: Universe, it: Item, n: nat, x: Item)
    requires it.typ < |u.structs|
    ensures x in Expand(u, it, n) <==>
              exists i :: 0 <= i < n && EmbedAt(u, it.typ, i) == Some(x.typ) && x.path == it.path + [i]
  {
    if n > 0 {
      InExpand(u, it, n - 1, x);
    }
  }

  ghost predicate EmbeddedBy(u: Universe, items: seq<Item>, x: Item, k: nat, i: nat)
    requires InUniverse(u, items)
  {
    k < |items| && EmbedAt(u, items[k].typ, i) == Some(x.typ) && x.path == items[k].path + [i]
  }

  lemma EmbeddedBySplits(u: Universe, items: seq<Item>, x: Item, k: nat, i: nat)
    requires InUniverse(u, items) && items != []
    ensures EmbeddedBy(u, items, x, k, i)
            <==> EmbeddedBy(u, items[..|items| - 1], x, k, i)
                 || (k == |items| - 1 && EmbedAt(u, items[k].typ, i) == Some(x.typ) && x.path == items[k].path + [i])
  {
  }

  lemma {:induction false} InOccurrences(u: Universe, items: seq<Item>, x: Item)
    requires InUniverse(u, items)
    ensures x in Occurrences(u, items) <==> exists k: nat, i: nat :: EmbeddedBy(u, items, x, k, i)
  {
    if items != [] {
      var before, last := items[..|items| - 1], items[|items| - 1];
      InOccurrences(u, before, x);
      InExpand(u, last, |u.structs[last.typ]|, x);
      if x in Occurrences(u, items) {
        if x in Occurrences(u, before) {
          var k: nat, i: nat :| EmbeddedBy(u, before, x, k, i);
          EmbeddedBySplits(u, items, x, k, i);
        } else {
          var i :| 0 <= i < |u.structs[last.typ]| && EmbedAt(u, last.typ, i) == Some(x.typ)
                   && x.path == last.path + [i];
          EmbeddedBySplits(u, items, x, |items| - 1, i);
        }
      }
      if exists k: nat, i: nat :: EmbeddedBy(u, items, x, k, i) {
        var k: nat, i: nat :| EmbeddedBy(u, items, x, k, i);
        EmbeddedBySplits(u, items, x, k, i);
      }
    }
  }

  lemma {:induction false} InUnvisited(items: seq<Item>, visited: set<nat>)
    ensures forall x :: x in Unvisited(items, visited) <==> x in items && x.typ !in visited
  {
    if items != [] {
      InUnvisited(items[..|items| - 1], visited);
    }
  }

  // ----- order within a level

  ghost predicate PathLess(p: seq<nat>, q: seq<nat>) {
    PathLeq(p, q) && p != q
  }

  /** All of one level, in strict order of their paths. */
  ghost predicate Ordered(items: seq<Item>, d: nat) {
    && (forall k :: 0 <= k < |items| ==> |items[k].path| == d)
    && (forall a, b :: 0 <= a < b < |items| ==> PathLess(items[a].path, items[b].path))
  }

  lemma OrderedConcat(a: seq<Item>, b: seq<Item>, d: nat)
    requires Ordered(a, d) && Ordered(b, d)
    requires forall x, y :: x in a && y in b ==> PathLess(x.path, y.path)
    ensures Ordered(a + b, d)
  {
  }

  lemma BeforeLast(items: seq<Item>, d: nat, x: Item)
    requires Ordered(items, d) && items != [] && x in items[..|items| - 1]
    ensures x in items && PathLess(x.path, items[|items| - 1].path)
  {
  }

  lemma UnvisitedPlace(items: seq<Item>, visited: set<nat>, k: nat) returns (j: nat)
    requires k < |items| && items[k].typ !in visited
    ensures j < |Unvisited(items, visited)| && Unvisited(items, visited)[j] == items[k]
  {
    InUnvisited(items, visited);
    assert items[k] in items && items[k] in Unvisited(items, visited);
    j :| 0 <= j < |Unvisited(items, visited)| && Unvisited(items, visited)[j] == items[k];
  }

  lemma {:induction false} UnvisitedOrdered(items: seq<Item>, visited: set<nat>, d: nat)
    requires Ordered(items, d)
    ensures Ordered(Unvisited(items, visited), d)
  {
    if items != [] {
      var before, last := items[..|items| - 1], items[|items| - 1];
      UnvisitedOrdered(before, visited, d);
      InUnvisited(before, visited);
      forall x | x in Unvisited(before, visited) {
        BeforeLast(items, d, x);
      }
      OrderedConcat(Unvisited(before, visited), if last.typ in visited then [] else [last], d);
    }
  }

  lemma SiblingsAscend(p: seq<nat>, i: nat, j: nat)
    requires i < j
    ensures PathLess(p + [i], p + [j])
  {
    PathLeqStep(p, p, i, j);
    assert (p + [i])[|p|] == i && (p + [j])[|p|] == j;
  }

  lemma {:induction false} ExpandOrdered(u: Universe, it: Item, n: nat)
    requires it.typ < |u.structs|
    ensures Ordered(Expand(u, it, n), |it.path| + 1)
  {
    if n > 0 {
      var before, last := Expand(u, it, n - 1), ExpandAt(u, it, n - 1);
      ExpandOrdered(u, it, n - 1);
      forall x, y | x in before && y in last
        ensures PathLess(x.path, y.path)
      {
        InExpand(u, it, n - 1, x);
        var i :| 0 <= i < n - 1 && x.path == it.path + [i];
        SiblingsAscend(it.path, i, n - 1);
      }
      OrderedConcat(before, last, |it.path| + 1);
    }
  }

  lemma {:induction false} OccurrencesOrdered(u: Universe, items: seq<Item>, d: nat)
    requires InUniverse(u, items) && Ordered(items, d)
    ensures Ordered(Occurrences(u, items), d + 1)
  {
    if items != [] {
      var before, last := items[..|items| - 1], items[|items| - 1];
      OccurrencesOrdered(u, before, d);
      ExpandOrdered(u, last, |u.structs[last.typ]|);
      forall x, y | x in Occurrences(u, before) && y in Expand(u, last, |u.structs[last.typ]|)
        ensures PathLess(x.path, y.path)
      {
        InOccurrences(u, before, x);
        InExpand(u, last, |u.structs[last.typ]|, y);
        var k: nat, i: nat :| EmbeddedBy(u, before, x, k, i);
        var j :| 0 <= j < |u.structs[last.typ]| && y.path == last.path + [j];
        BeforeLast(items, d, before[k]);
        PathLeqStep(before[k].path, last.path, i, j);
        assert x.path[..d] == before[k].path && y.path[..d] == last.path;
      }
      OrderedConcat(Occurrences(u, before), Expand(u, last, |u.structs[last.typ]|), d + 1);
    }
  }

  ghost predicate Earliest(first: seq<Item>, y: Item) {
    exists k :: 0 <= k < |first| && first[k].typ == y.typ && PathLeq(first[k].path, y.path)
  }

  ghost predicate OnePerType(items: seq<Item>) {
    forall a, b :: 0 <= a < b < |items| ==> items[a].typ != items[b].typ
  }

  lemma {:induction false} FirstOfIsIn(items: seq<Item>)
    ensures forall x :: x in FirstOf(items) ==> x in items
    ensures OnePerType(FirstOf(items))
  {
    if items != [] {
      var before, last := items[..|items| - 1], items[|items| - 1];
      FirstOfIsIn(before);
      forall k | 0 <= k < |FirstOf(before)| && FirstOf(before)[k].typ == last.typ
        ensures Names(before, last.typ)
      {
        assert FirstOf(before)[k] in before;
        var j :| 0 <= j < |before| && before[j] == FirstOf(before)[k];
      }
    }
  }

  lemma {:induction false} FirstOfOrdered(items: seq<Item>, d: nat)
    requires Ordered(items, d)
    ensures Ordered(FirstOf(items), d)
  {
    if items != [] {
      var before, last := items[..|items| - 1], items[|items| - 1];
      FirstOfOrdered(before, d);
      FirstOfIsIn(before);
      forall x | x in FirstOf(before) {
        BeforeLast(items, d, x);
      }
      OrderedConcat(FirstOf(before), if Names(before, last.typ) then [] else [last], d);
    }
  }

  /** Whatever occurs is in the next queue, at its first occurrence. */
  lemma {:induction false} FirstOfIsEarliest(items: seq<Item>, d: nat, y: Item)
    requires Ordered(items, d) && y in items
    ensures Earliest(FirstOf(items), y)
  {
    var before, last := items[..|items| - 1], items[|items| - 1];
    if y in before {
      FirstOfIsEarliest(before, d, y);
      var k :| 0 <= k < |FirstOf(before)| && FirstOf(before)[k].typ == y.typ
               && PathLeq(FirstOf(before)[k].path, y.path);
      assert FirstOf(items)[k] == FirstOf(before)[k];
    } else if Names(before, last.typ) {
      var j :| 0 <= j < |before| && before[j].typ == last.typ;
      FirstOfIsEarliest(before, d, before[j]);
      var k :| 0 <= k < |FirstOf(before)| && FirstOf(before)[k].typ == last.typ
               && PathLeq(FirstOf(before)[k].path, before[j].path);
      BeforeLast(items, d, before[j]);
      PathLeqTransitive(FirstOf(before)[k].path, before[j].path, last.path);
      assert FirstOf(items)[k] == FirstOf(before)[k];
    } else {
      PathLeqTotal(last.path, last.path);
      assert FirstOf(items)[|FirstOf(before)|] == last;
    }
  }

  // ----- counting embeddings

  lemma {:induction false} CountOfConcat(a: seq<Item>, b: seq<Item>, t: nat)
    ensures CountOf(a + b, t) == CountOf(a, t) + CountOf(b, t)
  {
    if b == [] {
      assert a + b == a;
    } else {
      assert (a + b)[..|a + b| - 1] == a + b[..|b| - 1];
      CountOfConcat(a, b[..|b| - 1], t);
    }
  }

  lemma {:induction false} CountedIsNamed(items: seq<Item>, t: nat)
    ensures CountOf(items, t) > 0 <==> Names(items, t)
  {
    if items != [] {
      var before := items[..|items| - 1];
      CountedIsNamed(before, t);
      if Names(before, t) {
        var k :| 0 <= k < |before| && before[k].typ == t;
        assert items[k].typ == t;
      }
    }
  }

  ghost predicate TwoPlaces(items: seq<Item>, t: nat, a: nat, b: nat) {
    a < b < |items| && items[a].typ == t && items[b].typ == t
  }

  lemma {:induction false} CountedTwiceHasTwoPlaces(items: seq<Item>, t: nat)
    ensures CountOf(items, t) > 1 <==> exists a: nat, b: nat :: TwoPlaces(items, t, a, b)
  {
    if items != [] {
      var n := |items| - 1;
      var before := items[..n];
      CountedTwiceHasTwoPlaces(before, t);
      CountedIsNamed(before, t);
      if exists a: nat, b: nat :: TwoPlaces(before, t, a, b) {
        var a: nat, b: nat :| TwoPlaces(before, t, a, b);
        assert TwoPlaces(items, t, a, b);
      } else if items[n].typ == t && Names(before, t) {
        var a :| 0 <= a < |before| && before[a].typ == t;
        assert TwoPlaces(items, t, a, n);
      }
      if exists a: nat, b: nat :: TwoPlaces(items, t, a, b) {
        var a: nat, b: nat :| TwoPlaces(items, t, a, b);
        assert before[a].typ == t;
        if b < n {
          assert TwoPlaces(before, t, a, b);
        }
      }
    }
  }

  // ----- what the search keeps from level to level

  /** The structs expanded so far are those of smaller depth. */
  ghost predicate VisitedAbove(u: Universe, root: nat, d: nat, visited: set<nat>)
    requires Closed(u) && root < |u.structs|
  {
    forall t :: t in visited <==> exists e :: 0 <= e < d && AtDepth(u, root, t, e)
  }

  /** The queue of level d: one item per struct, in path order, nothing missing. */
  ghost predicate QueueOf(u: Universe, root: nat, d: nat, items: seq<Item>, visited: set<nat>)
    requires Closed(u) && root < |u.structs|
  {
    && InUniverse(u, items)
    && Ordered(items, d)
    && OnePerType(items)
    && (forall k :: 0 <= k < |items| ==> Reaches(u, root, items[k].typ, items[k].path))
    && (forall t, p :: |p| == d && t !in visited && Reaches(u, root, t, p) ==> Earliest(items, Item(t, p)))
  }

  /** The counters of level d tell which structs are embedded more than once from the level above. */
  ghost predicate CountsOf(u: Universe, root: nat, d: nat, counts: map<nat, nat>)
    requires Closed(u) && root < |u.structs|
  {
    forall t: nat :: Looked(counts, t) > 1 <==> Doubled(u, root, t, d)
  }

  /** A queued struct not expanded before sits at exactly this depth, along its least path. */
  lemma FreshIsAtDepth(u: Universe, root: nat, d: nat, items: seq<Item>, visited: set<nat>, it: Item)
    requires Closed(u) && root < |u.structs| && VisitedAbove(u, root, d, visited) && QueueOf(u, root, d, items, visited)
    requires it in items && it.typ !in visited
    ensures LeastPath(u, root, it.typ, it.path) && AtDepth(u, root, it.typ, d)
  {
    var k :| 0 <= k < |items| && items[k] == it;
    assert Reaches(u, root, it.typ, it.path);
    ReachedHasDepth(u, root, it.typ, it.path);
    var e :| 0 <= e <= d && AtDepth(u, root, it.typ, e);
    assert e == d;
    forall q | |q| == d && Reaches(u, root, it.typ, q)
      ensures PathLeq(it.path, q)
    {
      assert Earliest(items, Item(it.typ, q));
      var j :| 0 <= j < |items| && items[j].typ == it.typ && PathLeq(items[j].path, q);
      assert j == k;
    }
  }

  /** Every struct of this depth is queued. */
  lemma AtDepthIsFresh(u: Universe, root: nat, d: nat, items: seq<Item>, visited: set<nat>, t: nat)
    requires Closed(u) && root < |u.structs| && VisitedAbove(u, root, d, visited) && QueueOf(u, root, d, items, visited)
    requires AtDepth(u, root, t, d)
    ensures t !in visited && Names(Unvisited(items, visited), t)
  {
    var p :| |p| == d && Reaches(u, root, t, p);
    assert t !in visited;
    assert Earliest(items, Item(t, p));
    var k :| 0 <= k < |items| && items[k].typ == t;
    var j := UnvisitedPlace(items, visited, k);
  }

  function Types(items: seq<Item>): set<nat> {
    set k | 0 <= k < |items| :: items[k].typ
  }

  lemma VisitedHasDepth(u: Universe, root: nat, d: nat, items: seq<Item>, visited: set<nat>, t: nat)
    requires Closed(u) && root < |u.structs| && VisitedAbove(u, root, d, visited) && QueueOf(u, root, d, items, visited)
    requires t in visited + Types(items)
    ensures exists e :: 0 <= e < d + 1 && AtDepth(u, root, t, e)
  {
    if t !in visited {
      var k :| 0 <= k < |items| && items[k].typ == t;
      FreshIsAtDepth(u, root, d, items, visited, items[k]);
    }
  }

  lemma DepthIsVisited(u: Universe, root: nat, d: nat, items: seq<Item>, visited: set<nat>, t: nat, e: nat)
    requires Closed(u) && root < |u.structs| && VisitedAbove(u, root, d, visited) && QueueOf(u, root, d, items, visited)
    requires e <= d && AtDepth(u, root, t, e)
    ensures t in visited + Types(items)
  {
  }

  lemma VisitedStep(u: Universe, root: nat, d: nat, items: seq<Item>, visited: set<nat>)
    requires Closed(u) && root < |u.structs| && VisitedAbove(u, root, d, visited) && QueueOf(u, root, d, items, visited)
    ensures VisitedAbove(u, root, d + 1, visited + Types(items))
  {
    forall t | t in visited + Types(items) {
      VisitedHasDepth(u, root, d, items, visited, t);
    }
    forall t, e: nat | e < d + 1 && AtDepth(u, root, t, e) {
      DepthIsVisited(u, root, d, items, visited, t, e);
    }
  }

  lemma {:induction false} FreshInUniverse(u: Universe, items: seq<Item>, visited: set<nat>)
    requires InUniverse(u, items)
    ensures InUniverse(u, Unvisited(items, visited))
  {
    InUnvisited(items, visited);
    forall k | 0 <= k < |Unvisited(items, visited)|
      ensures Unvisited(items, visited)[k].typ < |u.structs|
    {
      assert Unvisited(items, visited)[k] in items;
    }
  }

  lemma OccurrencesReach(u: Universe, root: nat, d: nat, items: seq<Item>, visited: set<nat>, x: Item)
    requires Closed(u) && root < |u.structs| && VisitedAbove(u, root, d, visited) && QueueOf(u, root, d, items, visited)
    requires InUniverse(u, Unvisited(items, visited)) && x in Occurrences(u, Unvisited(items, visited))
    ensures Reaches(u, root, x.typ, x.path) && x.typ < |u.structs|
  {
    var novel := Unvisited(items, visited);
    InOccurrences(u, novel, x);
    var k: nat, i: nat :| EmbeddedBy(u, novel, x, k, i);
    InUnvisited(items, visited);
    assert novel[k] in items;
    StepReaches(u, root, novel[k].typ, novel[k].path, i);
  }

  /** The parent on a path to a struct not yet queued is itself new at this level. */
  lemma ParentIsNovel(u: Universe, root: nat, d: nat, items: seq<Item>, visited: set<nat>, s: nat, i: nat)
    requires Closed(u) && root < |u.structs| && VisitedAbove(u, root, d, visited) && QueueOf(u, root, d, items, visited)
    requires s < |u.structs| && EmbedAt(u, s, i).Some? && EmbedAt(u, s, i).value !in visited + Types(items)
    ensures s !in visited
  {
    if s in visited {
      var e: nat :| e < d && AtDepth(u, root, s, e);
      ChildDepth(u, root, s, e, i);
      var e': nat :| e' <= e + 1 && AtDepth(u, root, EmbedAt(u, s, i).value, e');
      DepthIsVisited(u, root, d, items, visited, EmbedAt(u, s, i).value, e');
    }
  }

  lemma NovelIsQueuedBefore(u: Universe, root: nat, d: nat, items: seq<Item>, visited: set<nat>, s: nat, q: seq<nat>)
    returns (j: nat)
    requires Closed(u) && root < |u.structs| && QueueOf(u, root, d, items, visited)
    requires |q| == d && s !in visited && Reaches(u, root, s, q)
    ensures j < |Unvisited(items, visited)|
    ensures var y := Unvisited(items, visited)[j]; y.typ == s && |y.path| == d && PathLeq(y.path, q)
  {
    assert Earliest(items, Item(s, q));
    var k :| 0 <= k < |items| && items[k].typ == s && PathLeq(items[k].path, q);
    j := UnvisitedPlace(items, visited, k);
  }

  lemma EmbeddingOccurs(u: Universe, items: seq<Item>, j: nat, i: nat, q: seq<nat>) returns (x: Item)
    requires InUniverse(u, items) && j < |items| && EmbedAt(u, items[j].typ, i).Some?
    requires |items[j].path| == |q| && PathLeq(items[j].path, q)
    ensures x in Occurrences(u, items) && x.typ == EmbedAt(u, items[j].typ, i).value && PathLeq(x.path, q + [i])
  {
    x := Item(EmbedAt(u, items[j].typ, i).value, items[j].path + [i]);
    assert EmbeddedBy(u, items, x, j, i);
    InOccurrences(u, items, x);
    PathLeqStep(items[j].path, q, i, i);
  }

  lemma LastStep(u: Universe, root: nat, t: nat, p: seq<nat>) returns (s: nat, q: seq<nat>, i: nat)
    requires Closed(u) && root < |u.structs| && p != [] && Reaches(u, root, t, p)
    ensures p == q + [i] && s < |u.structs| && Reaches(u, root, s, q) && EmbedAt(u, s, i) == Some(t)
  {
    q, i := p[..|p| - 1], p[|p| - 1];
    s := TypeAt(u, root, q).value;
  }

  lemma OccurrencesComplete(u: Universe, root: nat, d: nat, items: seq<Item>, visited: set<nat>, t: nat, p: seq<nat>)
    returns (x: Item)
    requires Closed(u) && root < |u.structs| && VisitedAbove(u, root, d, visited) && QueueOf(u, root, d, items, visited)
    requires InUniverse(u, Unvisited(items, visited))
    requires |p| == d + 1 && Reaches(u, root, t, p) && t !in visited + Types(items)
    ensures x in Occurrences(u, Unvisited(items, visited)) && x.typ == t && PathLeq(x.path, p)
  {
    var s, q, i := LastStep(u, root, t, p);
    ParentIsNovel(u, root, d, items, visited, s, i);
    var j := NovelIsQueuedBefore(u, root, d, items, visited, s, q);
    x := EmbeddingOccurs(u, Unvisited(items, visited), j, i, q);
  }

  lemma QueueStep(u: Universe, root: nat, d: nat, items: seq<Item>, visited: set<nat>)
    requires Closed(u) && root < |u.structs| && VisitedAbove(u, root, d, visited) && QueueOf(u, root, d, items, visited)
    requires InUniverse(u, Unvisited(items, visited))
    ensures QueueOf(u, root, d + 1, FirstOf(Occurrences(u, Unvisited(items, visited))), visited + Types(items))
  {
    var novel := Unvisited(items, visited);
    var occ := Occurrences(u, novel);
    var next := FirstOf(occ);
    UnvisitedOrdered(items, visited, d);
    OccurrencesOrdered(u, novel, d);
    FirstOfOrdered(occ, d + 1);
    FirstOfIsIn(occ);
    forall k | 0 <= k < |next|
      ensures next[k].typ < |u.structs| && Reaches(u, root, next[k].typ, next[k].path)
    {
      assert next[k] in occ;
      OccurrencesReach(u, root, d, items, visited, next[k]);
    }
    forall t, p | |p| == d + 1 && t !in visited + Types(items) && Reaches(u, root, t, p)
      ensures Earliest(next, Item(t, p))
    {
      var x := OccurrencesComplete(u, root, d, items, visited, t, p);
      FirstOfIsEarliest(occ, d + 1, x);
      var k :| 0 <= k < |next| && next[k].typ == t && PathLeq(next[k].path, x.path);
      PathLeqTransitive(next[k].path, x.path, p);
    }
  }

  // ----- the counters tell which structs are doubled

  lemma OneItemPerType(items: seq<Item>, x: Item, y: Item)
    requires OnePerType(items) && x in items && y in items && x.typ == y.typ
    ensures x == y
  {
  }

  /** An occurrence at this level is an embedding from the level above, by one known item. */
  lemma OccurrenceEmbeds(u: Universe, root: nat, d: nat, items: seq<Item>, visited: set<nat>, x: Item)
    returns (it: Item, i: nat)
    requires Closed(u) && root < |u.structs| && VisitedAbove(u, root, d, visited) && QueueOf(u, root, d, items, visited)
    requires InUniverse(u, Unvisited(items, visited)) && x in Occurrences(u, Unvisited(items, visited))
    ensures it in items && x.path == it.path + [i] && EmbedsFrom(u, root, it.typ, i, x.typ, d + 1)
  {
    var novel := Unvisited(items, visited);
    InOccurrences(u, novel, x);
    var k: nat, j: nat :| EmbeddedBy(u, novel, x, k, j);
    InUnvisited(items, visited);
    it, i := novel[k], j;
    assert it in novel;
    FreshIsAtDepth(u, root, d, items, visited, it);
  }

  /** An embedding from the level above occurs, along the least path of the struct that makes it. */
  lemma EmbeddingHasOccurrence(u: Universe, root: nat, d: nat, items: seq<Item>, visited: set<nat>,
                               s: nat, i: nat, t: nat) returns (x: Item, it: Item)
    requires Closed(u) && root < |u.structs| && VisitedAbove(u, root, d, visited) && QueueOf(u, root, d, items, visited)
    requires InUniverse(u, Unvisited(items, visited)) && EmbedsFrom(u, root, s, i, t, d + 1)
    ensures x in Occurrences(u, Unvisited(items, visited)) && x.typ == t
    ensures it in items && it.typ == s && x.path == it.path + [i]
  {
    var novel := Unvisited(items, visited);
    AtDepthIsFresh(u, root, d, items, visited, s);
    var k :| 0 <= k < |novel| && novel[k].typ == s;
    InUnvisited(items, visited);
    it := novel[k];
    assert it in novel;
    x := Item(t, it.path + [i]);
    assert EmbeddedBy(u, novel, x, k, i);
    InOccurrences(u, novel, x);
  }

  lemma TwoOccurrencesAreTwoEmbeddings(u: Universe, root: nat, d: nat, items: seq<Item>, visited: set<nat>, t: nat)
    requires Closed(u) && root < |u.structs| && VisitedAbove(u, root, d, visited) && QueueOf(u, root, d, items, visited)
    requires InUniverse(u, Unvisited(items, visited))
    requires CountOf(Occurrences(u, Unvisited(items, visited)), t) > 1
    ensures Doubled(u, root, t, d + 1)
  {
    var novel := Unvisited(items, visited);
    var occ := Occurrences(u, novel);
    CountedTwiceHasTwoPlaces(occ, t);
    var a: nat, b: nat :| TwoPlaces(occ, t, a, b);
    UnvisitedOrdered(items, visited, d);
    OccurrencesOrdered(u, novel, d);
    assert PathLess(occ[a].path, occ[b].path);
    var x, i := OccurrenceEmbeds(u, root, d, items, visited, occ[a]);
    var y, j := OccurrenceEmbeds(u, root, d, items, visited, occ[b]);
    if x.typ == y.typ {
      OneItemPerType(items, x, y);
    }
    assert (x.typ, i) != (y.typ, j);
  }

  lemma QueuedReach(u: Universe, root: nat, d: nat, items: seq<Item>, visited: set<nat>)
    requires Closed(u) && root < |u.structs| && QueueOf(u, root, d, items, visited)
    ensures forall it :: it in items ==> Reaches(u, root, it.typ, it.path)
  {
  }

  lemma TwoEmbeddingsAreTwoOccurrences(u: Universe, root: nat, d: nat, items: seq<Item>, visited: set<nat>, t: nat)
    requires Closed(u) && root < |u.structs| && VisitedAbove(u, root, d, visited) && QueueOf(u, root, d, items, visited)
    requires InUniverse(u, Unvisited(items, visited))
    requires Doubled(u, root, t, d + 1)
    ensures CountOf(Occurrences(u, Unvisited(items, visited)), t) > 1
  {
    var occ := Occurrences(u, Unvisited(items, visited));
    QueuedReach(u, root, d, items, visited);
    var s, i, s', i' :| EmbedsFrom(u, root, s, i, t, d + 1) && EmbedsFrom(u, root, s', i', t, d + 1)
                        && (s, i) != (s', i');
    var x, it := EmbeddingHasOccurrence(u, root, d, items, visited, s, i, t);
    var x', it' := EmbeddingHasOccurrence(u, root, d, items, visited, s', i', t);
    if x.path == x'.path {
      SamePathSameEmbedding(u, root, it, i, it', i');
    }
    DifferentOccurrencesCount(occ, x, x');
  }

  lemma SamePathSameEmbedding(u: Universe, root: nat, it: Item, i: nat, it': Item, i': nat)
    requires Closed(u) && root < |u.structs| && Reaches(u, root, it.typ, it.path) && Reaches(u, root, it'.typ, it'.path)
    requires it.path + [i] == it'.path + [i']
    ensures it == it' && i == i'
  {
    var p := it.path + [i];
    assert it.path == p[..|p| - 1] && it'.path == p[..|p| - 1];
    assert i == p[|p| - 1] && i' == p[|p| - 1];
  }

  lemma DifferentOccurrencesCount(items: seq<Item>, x: Item, y: Item)
    requires x in items && y in items && x != y && x.typ == y.typ
    ensures CountOf(items, x.typ) > 1
  {
    var a :| 0 <= a < |items| && items[a] == x;
    var b :| 0 <= b < |items| && items[b] == y;
    assert TwoPlaces(items, x.typ, if a < b then a else b, if a < b then b else a);
    CountedTwiceHasTwoPlaces(items, x.typ);
  }

  /** The next level's counters, as the loop fills them. */
  lemma CountsStep(u: Universe, root: nat, d: nat, items: seq<Item>, visited: set<nat>, counts: map<nat, nat>)
    requires Closed(u) && root < |u.structs| && VisitedAbove(u, root, d, visited) && QueueOf(u, root, d, items, visited)
    requires InUniverse(u, Unvisited(items, visited))
    requires forall t :: Looked(counts, t) == CountOf(Occurrences(u, Unvisited(items, visited)), t)
    ensures CountsOf(u, root, d + 1, counts)
  {
    forall t: nat
      ensures Looked(counts, t) > 1 <==> Doubled(u, root, t, d + 1)
    {
      if Looked(counts, t) > 1 {
        TwoOccurrencesAreTwoEmbeddings(u, root, d, items, visited, t);
      }
      if Doubled(u, root, t, d + 1) {
        TwoEmbeddingsAreTwoOccurrences(u, root, d, items, visited, t);
      }
    }
  }

  // ----- the candidates, each as often as it counts

  /** How often the search lists c among the structs of depth less than d. */
  ghost function Weight(u: Universe, root: nat, d: nat, c: Candidate): nat
    requires Closed(u) && root < |u.structs|
  {
    if !Contender(u, root, c) || |c.index| > d then 0
    else if OwnerDoubled(u, root, c) then 2
    else 1
  }

  ghost predicate Lists(u: Universe, root: nat, d: nat, candidates: seq<Candidate>)
    requires Closed(u) && root < |u.structs|
  {
    forall c :: multiset(candidates)[c] == Weight(u, root, d, c)
  }

  ghost predicate EmittedBy(u: Universe, it: Item, n: nat, c: Candidate)
    requires it.typ < |u.structs|
  {
    && c.index != [] && c.index[..|c.index| - 1] == it.path
    && c.index[|c.index| - 1] < n && Exposed(u, it.typ, c.index[|c.index| - 1])
    && c == CandidateOf(u.structs[it.typ][c.index[|c.index| - 1]], c.index, |it.path|)
  }

  lemma CountConcat(a: seq<Candidate>, b: seq<Candidate>, c: Candidate)
    ensures multiset(a + b)[c] == multiset(a)[c] + multiset(b)[c]
  {
  }

  ghost predicate EmittedHere(u: Universe, it: Item, i: nat, c: Candidate)
    requires it.typ < |u.structs|
  {
    Exposed(u, it.typ, i) && c == CandidateOf(u.structs[it.typ][i], it.path + [i], |it.path|)
  }

  lemma EmitAtCount(u: Universe, it: Item, twice: bool, i: nat, c: Candidate)
    requires it.typ < |u.structs|
    ensures multiset(EmitAt(u, it, twice, i))[c] == if EmittedHere(u, it, i, c) then (if twice then 2 else 1) else 0
  {
  }

  lemma EmittedBySplits(u: Universe, it: Item, n: nat, c: Candidate)
    requires it.typ < |u.structs| && n > 0
    ensures EmittedBy(u, it, n, c) <==> EmittedBy(u, it, n - 1, c) || EmittedHere(u, it, n - 1, c)
    ensures !(EmittedBy(u, it, n - 1, c) && EmittedHere(u, it, n - 1, c))
  {
  }

  lemma {:induction false} EmitCount(u: Universe, it: Item, twice: bool, n: nat, c: Candidate)
    requires it.typ < |u.structs|
    ensures multiset(Emit(u, it, twice, n))[c] == if EmittedBy(u, it, n, c) then (if twice then 2 else 1) else 0
  {
    if n == 0 {
      assert !EmittedBy(u, it, n, c);
    } else {
      var before, here := Emit(u, it, twice, n - 1), EmitAt(u, it, twice, n - 1);
      EmitCount(u, it, twice, n - 1, c);
      EmitAtCount(u, it, twice, n - 1, c);
      CountConcat(before, here, c);
      EmittedBySplits(u, it, n, c);
      assert Emit(u, it, twice, n) == before + here;
    }
  }

  lemma {:induction false} EmittedNotBefore(u: Universe, items: seq<Item>, counts: map<nat, nat>, d: nat, c: Candidate)
    requires InUniverse(u, items) && Ordered(items, d)
    requires forall k :: 0 <= k < |items| ==> !EmittedBy(u, items[k], |u.structs[items[k].typ]|, c)
    ensures multiset(Emitted(u, items, counts))[c] == 0
  {
    if items != [] {
      var before := items[..|items| - 1];
      EmittedNotBefore(u, before, counts, d, c);
      EmittedSplits(u, items, counts, c);
    }
  }

  lemma EmitsOnlyItsOwn(u: Universe, items: seq<Item>, d: nat, c: Candidate, k: nat, j: nat)
    requires InUniverse(u, items) && Ordered(items, d)
    requires k < |items| && j < |items| && j != k && EmittedBy(u, items[k], |u.structs[items[k].typ]|, c)
    ensures !EmittedBy(u, items[j], |u.structs[items[j].typ]|, c)
  {
  }

  /** How often one item lists c. */
  ghost function Times(u: Universe, it: Item, counts: map<nat, nat>, c: Candidate): nat
    requires it.typ < |u.structs|
  {
    if !EmittedBy(u, it, |u.structs[it.typ]|, c) then 0 else if Looked(counts, it.typ) > 1 then 2 else 1
  }

  lemma EmittedSplits(u: Universe, items: seq<Item>, counts: map<nat, nat>, c: Candidate)
    requires InUniverse(u, items) && items != []
    ensures var n := |items| - 1;
            multiset(Emitted(u, items, counts))[c]
            == multiset(Emitted(u, items[..n], counts))[c] + Times(u, items[n], counts, c)
  {
    var n := |items| - 1;
    var twice := Looked(counts, items[n].typ) > 1;
    EmitCount(u, items[n], twice, |u.structs[items[n].typ]|, c);
    CountConcat(Emitted(u, items[..n], counts), Emit(u, items[n], twice, |u.structs[items[n].typ]|), c);
  }

  lemma EmittedLast(u: Universe, items: seq<Item>, counts: map<nat, nat>, d: nat, c: Candidate)
    requires InUniverse(u, items) && Ordered(items, d) && items != []
    requires var last := items[|items| - 1]; EmittedBy(u, last, |u.structs[last.typ]|, c)
    ensures multiset(Emitted(u, items[..|items| - 1], counts))[c] == 0
  {
    var n := |items| - 1;
    forall j | 0 <= j < n
      ensures !EmittedBy(u, items[j], |u.structs[items[j].typ]|, c)
    {
      EmitsOnlyItsOwn(u, items, d, c, n, j);
    }
    EmittedNotBefore(u, items[..n], counts, d, c);
  }

  lemma PrefixEmits(u: Universe, items: seq<Item>, n: nat, d: nat, c: Candidate, k: nat)
    requires InUniverse(u, items) && Ordered(items, d) && k < n <= |items|
    requires EmittedBy(u, items[k], |u.structs[items[k].typ]|, c)
    ensures InUniverse(u, items[..n]) && Ordered(items[..n], d) && items[..n][k] == items[k]
    ensures EmittedBy(u, items[..n][k], |u.structs[items[..n][k].typ]|, c)
  {
  }

  lemma {:induction false} EmittedCount(u: Universe, items: seq<Item>, counts: map<nat, nat>, d: nat, c: Candidate,
                                        k: nat)
    requires InUniverse(u, items) && Ordered(items, d)
    requires k < |items| && EmittedBy(u, items[k], |u.structs[items[k].typ]|, c)
    ensures multiset(Emitted(u, items, counts))[c] == Times(u, items[k], counts, c)
  {
    var n := |items| - 1;
    EmittedSplits(u, items, counts, c);
    if k < n {
      EmitsOnlyItsOwn(u, items, d, c, k, n);
      PrefixEmits(u, items, n, d, c, k);
      EmittedCount(u, items[..n], counts, d, c, k);
    } else {
      EmittedLast(u, items, counts, d, c);
    }
  }

  /** What a new struct of this level lists is a contender one level down the index. */
  lemma EmittedIsContender(u: Universe, root: nat, d: nat, items: seq<Item>, visited: set<nat>, it: Item, c: Candidate)
    requires Closed(u) && root < |u.structs| && VisitedAbove(u, root, d, visited) && QueueOf(u, root, d, items, visited)
    requires it in Unvisited(items, visited) && it.typ < |u.structs| && EmittedBy(u, it, |u.structs[it.typ]|, c)
    ensures Contender(u, root, c) && |c.index| == d + 1 && Owner(u, root, c.index) == Some(it.typ)
  {
    InUnvisited(items, visited);
    FreshIsAtDepth(u, root, d, items, visited, it);
    var k :| 0 <= k < |items| && items[k] == it;
    assert |items[k].path| == d;
  }

  lemma LeastPathIsUnique(u: Universe, root: nat, t: nat, p: seq<nat>, q: seq<nat>)
    requires Closed(u) && root < |u.structs| && LeastPath(u, root, t, p) && LeastPath(u, root, t, q)
    ensures p == q
  {
    PathLeqTotal(p, q);
  }

  /** A contender of this level is listed by the queued item of its struct. */
  lemma ContenderIsEmitted(u: Universe, root: nat, d: nat, items: seq<Item>, visited: set<nat>, c: Candidate)
    returns (k: nat)
    requires Closed(u) && root < |u.structs| && VisitedAbove(u, root, d, visited) && QueueOf(u, root, d, items, visited)
    requires InUniverse(u, Unvisited(items, visited))
    requires Contender(u, root, c) && |c.index| == d + 1
    ensures k < |Unvisited(items, visited)|
    ensures var it := Unvisited(items, visited)[k];
            it.typ == Owner(u, root, c.index).value && EmittedBy(u, it, |u.structs[it.typ]|, c)
  {
    var t := Owner(u, root, c.index).value;
    AtDepthIsFresh(u, root, d, items, visited, t);
    k :| 0 <= k < |Unvisited(items, visited)| && Unvisited(items, visited)[k].typ == t;
    var it := Unvisited(items, visited)[k];
    InUnvisited(items, visited);
    assert it in Unvisited(items, visited);
    FreshIsAtDepth(u, root, d, items, visited, it);
    LeastPathIsUnique(u, root, t, it.path, c.index[..d]);
  }

  lemma ListsStep(u: Universe, root: nat, d: nat, items: seq<Item>, visited: set<nat>, counts: map<nat, nat>,
                  candidates: seq<Candidate>)
    requires Closed(u) && root < |u.structs| && VisitedAbove(u, root, d, visited) && QueueOf(u, root, d, items, visited)
    requires InUniverse(u, Unvisited(items, visited))
    requires CountsOf(u, root, d, counts) && Lists(u, root, d, candidates)
    ensures Lists(u, root, d + 1, candidates + Emitted(u, Unvisited(items, visited), counts))
  {
    var novel := Unvisited(items, visited);
    var more := Emitted(u, novel, counts);
    UnvisitedOrdered(items, visited, d);
    forall c
      ensures multiset(candidates + more)[c] == Weight(u, root, d + 1, c)
    {
      CountConcat(candidates, more, c);
      if Contender(u, root, c) && |c.index| == d + 1 {
        var k := ContenderIsEmitted(u, root, d, items, visited, c);
        EmittedCount(u, novel, counts, d, c, k);
      } else {
        forall k | 0 <= k < |novel|
          ensures !EmittedBy(u, novel[k], |u.structs[novel[k].typ]|, c)
        {
          if EmittedBy(u, novel[k], |u.structs[novel[k].typ]|, c) {
            EmittedIsContender(u, root, d, items, visited, novel[k], c);
          }
        }
        EmittedNotBefore(u, novel, counts, d, c);
      }
    }
  }

  // ----- the end of the search

  lemma {:induction false} DepthsHaveNoGaps(u: Universe, root: nat, t: nat, e: nat, d: nat) returns (s: nat)
    requires Closed(u) && root < |u.structs| && AtDepth(u, root, t, e) && d <= e
    ensures AtDepth(u, root, s, d)
    decreases e
  {
    if d == e {
      s := t;
    } else {
      var p :| |p| == e && Reaches(u, root, t, p);
      var parent, q, i := LastStep(u, root, t, p);
      forall q' | Reaches(u, root, parent, q')
        ensures e - 1 <= |q'|
      {
        StepReaches(u, root, parent, q', i);
      }
      assert AtDepth(u, root, parent, e - 1);
      s := DepthsHaveNoGaps(u, root, parent, e - 1, d);
    }
  }

  /** When the queue of a level is empty there is no struct at that depth or below. */
  lemma EmptyQueueEndsSearch(u: Universe, root: nat, d: nat, visited: set<nat>, t: nat, e: nat)
    requires Closed(u) && root < |u.structs| && VisitedAbove(u, root, d, visited) && QueueOf(u, root, d, [], visited)
    requires AtDepth(u, root, t, e)
    ensures e < d
  {
    if d <= e {
      var s := DepthsHaveNoGaps(u, root, t, e, d);
      AtDepthIsFresh(u, root, d, [], visited, s);
    }
  }

  /** The candidates are all the contenders, and a doubled struct's twice. */
  ghost predicate ListsAll(u: Universe, root: nat, candidates: seq<Candidate>)
    requires Closed(u) && root < |u.structs|
  {
    forall c :: multiset(candidates)[c] ==
                  if !Contender(u, root, c) then 0 else if OwnerDoubled(u, root, c) then 2 else 1
  }

  // ----- the search, in place

  lemma {:induction false} QueueGrows(met: seq<Item>, x: Item)
    ensures FirstOf(met + [x]) == FirstOf(met) + (if CountOf(met, x.typ) == 0 then [x] else [])
    ensures forall t :: CountOf(met + [x], t) == CountOf(met, t) + (if t == x.typ then 1 else 0)
  {
    assert (met + [x])[..|met|] == met;
    CountedIsNamed(met, x.typ);
  }

  lemma OneMore<T>(a: seq<T>, b: seq<T>, c: seq<T>)
    ensures a + (b + c) == a + b + c
  {
  }

  /** One field: skipped, queued as an embedded struct, or checked and listed as a candidate. */
  method VisitField(u: Universe, stack: nat, it: Item, twice: bool, i: nat, queued: seq<Item>, counted: map<nat, nat>,
                    listed: seq<Candidate>, ghost met: seq<Item>)
    returns (why: Option<bool>, next: seq<Item>, counts: map<nat, nat>, candidates: seq<Candidate>)
    requires it.typ < |u.structs| && i < |u.structs[it.typ]|
    requires queued == FirstOf(met) && forall t :: Looked(counted, t) == CountOf(met, t)
    ensures why == VerdictAt(u, stack, it.typ, i)
    ensures why == Some(true) ==> next == FirstOf(met + ExpandAt(u, it, i))
    ensures why == Some(true) ==> forall t :: Looked(counts, t) == CountOf(met + ExpandAt(u, it, i), t)
    ensures why == Some(true) ==> candidates == listed + EmitAt(u, it, twice, i)
  {
    why, next, counts, candidates := Some(true), queued, counted, listed;
    assert met + [] == met;
    var f := u.structs[it.typ][i];
    if Ignored(u, f) {
      return;
    }
    var index := it.path + [i];
    var e := Embedded(u, f);
    if e.Some? {
      QueueGrows(met, Item(e.value, index));
      counts := counts[e.value := Looked(counts, e.value) + 1];
      if counts[e.value] == 1 {
        next := next + [Item(e.value, index)];
      }
      return;
    }
    if !f.exported {
      return;
    }
    why := Verdict(u, f.typ, stack);
    if why != Some(true) {
      return;
    }
    var c := CandidateOf(f, index, |it.path|);
    candidates := candidates + [c];
    if twice {
      candidates := candidates + [c];
    }
  }

  lemma ItemGrows(u: Universe, it: Item, twice: bool, i: nat, met: seq<Item>, listed: seq<Candidate>)
    requires it.typ < |u.structs|
    ensures met + Expand(u, it, i) + ExpandAt(u, it, i) == met + Expand(u, it, i + 1)
    ensures listed + Emit(u, it, twice, i) + EmitAt(u, it, twice, i) == listed + Emit(u, it, twice, i + 1)
  {
  }

  /** Queues the structs one item embeds and lists the fields it exposes, up to the first that does not pass. */
  method ExpandItem(u: Universe, stack: nat, it: Item, twice: bool, queued: seq<Item>, counted: map<nat, nat>,
                    listed: seq<Candidate>, ghost met: seq<Item>)
    returns (why: Option<bool>, next: seq<Item>, counts: map<nat, nat>, candidates: seq<Candidate>, ghost at: nat)
    requires it.typ < |u.structs|
    requires queued == FirstOf(met) && forall t :: Looked(counted, t) == CountOf(met, t)
    ensures why == Some(true) ==> AllSupported(u, stack, it.typ, |u.structs[it.typ]|)
    ensures why != Some(true) ==> StopsIn(u, stack, it.typ, at, why)
    ensures why == Some(true) ==> next == FirstOf(met + Expand(u, it, |u.structs[it.typ]|))
    ensures why == Some(true) ==> forall t :: Looked(counts, t) == CountOf(met + Expand(u, it, |u.structs[it.typ]|), t)
    ensures why == Some(true) ==> candidates == listed + Emit(u, it, twice, |u.structs[it.typ]|)
  {
    why, next, counts, candidates, at := Some(true), queued, counted, listed, 0;
    assert met + [] == met && listed + [] == listed;
    for i := 0 to |u.structs[it.typ]|
      invariant why == Some(true) && AllSupported(u, stack, it.typ, i)
      invariant next == FirstOf(met + Expand(u, it, i))
      invariant forall t :: Looked(counts, t) == CountOf(met + Expand(u, it, i), t)
      invariant candidates == listed + Emit(u, it, twice, i)
    {
      ItemGrows(u, it, twice, i, met, listed);
      why, next, counts, candidates :=
        VisitField(u, stack, it, twice, i, next, counts, candidates, met + Expand(u, it, i));
      if why != Some(true) {
        at := i;
        return;
      }
    }
  }

  lemma LevelGrows(u: Universe, done: seq<Item>, it: Item, counts: map<nat, nat>, listed: seq<Candidate>)
    requires InUniverse(u, done) && it.typ < |u.structs|
    ensures InUniverse(u, done + [it])
    ensures Occurrences(u, done + [it]) == Occurrences(u, done) + Expand(u, it, |u.structs[it.typ]|)
    ensures listed + Emitted(u, done + [it], counts)
            == listed + Emitted(u, done, counts) + Emit(u, it, Looked(counts, it.typ) > 1, |u.structs[it.typ]|)
  {
    assert (done + [it])[..|done|] == done;
    OneMore(listed, Emitted(u, done, counts), Emit(u, it, Looked(counts, it.typ) > 1, |u.structs[it.typ]|));
  }

  lemma UnvisitedGrows(items: seq<Item>, visited: set<nat>, k: nat)
    requires k < |items|
    ensures Unvisited(items[..k + 1], visited)
            == Unvisited(items[..k], visited) + (if items[k].typ in visited then [] else [items[k]])
  {
    assert items[..k + 1][..k] == items[..k];
  }

  /** What one level has found once the structs of `done` are expanded. */
  ghost predicate Found(u: Universe, done: seq<Item>, next: seq<Item>, counts: map<nat, nat>)
    requires InUniverse(u, done)
  {
    && next == FirstOf(Occurrences(u, done))
    && (forall t :: Looked(counts, t) == CountOf(Occurrences(u, done), t))
  }

  ghost predicate SupportedAll(u: Universe, stack: nat, items: seq<Item>)
    requires InUniverse(u, items)
  {
    forall k :: 0 <= k < |items| ==> AllSupported(u, stack, items[k].typ, |u.structs[items[k].typ]|)
  }

  /** Expands a struct met for the first time, doubled if its counter says so; skips any other. */
  method VisitItem(u: Universe, stack: nat, it: Item, count: map<nat, nat>, queued: seq<Item>, counted: map<nat, nat>,
                   expanded: set<nat>, before: seq<Candidate>, ghost done: seq<Item>, ghost listed: seq<Candidate>)
    returns (why: Option<bool>, next: seq<Item>, counts: map<nat, nat>, visited: set<nat>, candidates: seq<Candidate>,
             ghost now: seq<Item>, ghost at: nat)
    requires it.typ < |u.structs| && InUniverse(u, done)
    requires Found(u, done, queued, counted) && before == listed + Emitted(u, done, count)
    ensures visited == expanded + {it.typ}
    ensures now == done + (if it.typ in expanded then [] else [it]) && InUniverse(u, now)
    ensures why != Some(true) ==> it.typ !in expanded && StopsIn(u, stack, it.typ, at, why)
    ensures why == Some(true) ==> Found(u, now, next, counts) && candidates == listed + Emitted(u, now, count)
    ensures why == Some(true) && SupportedAll(u, stack, done) ==> SupportedAll(u, stack, now)
  {
    why, next, counts, visited, candidates, now, at := Some(true), queued, counted, expanded, before, done, 0;
    if it.typ in visited {
      return;
    }
    visited := visited + {it.typ};
    now := done + [it];
    LevelGrows(u, done, it, count, listed);
    why, next, counts, candidates, at :=
      ExpandItem(u, stack, it, Looked(count, it.typ) > 1, queued, counted, before, Occurrences(u, done));
  }

  /** The first k items of a queue, and what a shorter walk implies for the whole. */
  lemma Prefixes(u: Universe, items: seq<Item>, expanded: set<nat>, k: nat)
    requires k < |items| && InUniverse(u, items) && OnePerType(items)
    ensures items[k].typ in expanded + Types(items[..k]) <==> items[k].typ in expanded
    ensures expanded + Types(items[..k]) + {items[k].typ} == expanded + Types(items[..k + 1])
    ensures Unvisited(items[..k + 1], expanded)
            == Unvisited(items[..k], expanded) + (if items[k].typ in expanded then [] else [items[k]])
  {
    TypesGrow(items, k);
    UnvisitedGrows(items, expanded, k);
  }

  lemma {:induction false} UnvisitedPrefix(items: seq<Item>, visited: set<nat>, k: nat)
    requires k <= |items|
    ensures Unvisited(items[..k], visited) <= Unvisited(items, visited)
    decreases |items|
  {
    if k == |items| {
      assert items[..k] == items;
    } else {
      assert items[..|items| - 1][..k] == items[..k];
      UnvisitedPrefix(items[..|items| - 1], visited, k);
    }
  }

  /** Item k of a level's new structs is the first with a field that does not pass: field i. */
  ghost predicate StopsLevel(u: Universe, stack: nat, novel: seq<Item>, k: nat, i: nat, why: Option<bool>)
    requires InUniverse(u, novel)
  {
    && k < |novel| && StopsIn(u, stack, novel[k].typ, i, why)
    && forall j :: 0 <= j < k ==> AllSupported(u, stack, novel[j].typ, |u.structs[novel[j].typ]|)
  }

  lemma StopsHere(u: Universe, stack: nat, items: seq<Item>, expanded: set<nat>, k: nat, i: nat, why: Option<bool>)
    requires k < |items| && InUniverse(u, Unvisited(items[..k], expanded)) && InUniverse(u, Unvisited(items, expanded))
    requires items[k].typ !in expanded && items[k].typ < |u.structs| && StopsIn(u, stack, items[k].typ, i, why)
    requires SupportedAll(u, stack, Unvisited(items[..k], expanded))
    ensures StopsLevel(u, stack, Unvisited(items, expanded), |Unvisited(items[..k], expanded)|, i, why)
  {
    var done, novel := Unvisited(items[..k], expanded), Unvisited(items, expanded);
    UnvisitedGrows(items, expanded, k);
    UnvisitedPrefix(items, expanded, k + 1);
    assert novel[|done|] == items[k];
    forall j | 0 <= j < |done|
      ensures novel[j] == done[j]
    {
    }
  }

  lemma WholeQueue(items: seq<Item>)
    ensures items[..|items|] == items
  {
  }

  /**
   One level: expands every queued struct that was not expanded before, up to the first
   field whose type does not pass.
   */
  method ExpandLevel(u: Universe, stack: nat, current: seq<Item>, count: map<nat, nat>, expanded: set<nat>,
                     listed: seq<Candidate>)
    returns (why: Option<bool>, next: seq<Item>, counts: map<nat, nat>, visited: set<nat>, candidates: seq<Candidate>,
             ghost item: nat, ghost at: nat)
    requires InUniverse(u, current) && InUniverse(u, Unvisited(current, expanded)) && OnePerType(current)
    ensures why == Some(true) ==> SupportedAll(u, stack, Unvisited(current, expanded))
    ensures why != Some(true) ==> StopsLevel(u, stack, Unvisited(current, expanded), item, at, why)
    ensures why == Some(true) ==> Found(u, Unvisited(current, expanded), next, counts)
    ensures why == Some(true) ==> visited == expanded + Types(current)
    ensures why == Some(true) ==> candidates == listed + Emitted(u, Unvisited(current, expanded), count)
  {
    why, next, counts, visited, candidates, item, at := Some(true), [], map[], expanded, listed, 0, 0;
    ghost var done: seq<Item> := [];
    for k := 0 to |current|
      invariant why == Some(true) && done == Unvisited(current[..k], expanded) && InUniverse(u, done)
      invariant SupportedAll(u, stack, done)
      invariant Found(u, done, next, counts)
      invariant visited == expanded + Types(current[..k])
      invariant candidates == listed + Emitted(u, done, count)
    {
      Prefixes(u, current, expanded, k);
      item := |done|;
      why, next, counts, visited, candidates, done, at :=
        VisitItem(u, stack, current[k], count, next, counts, visited, candidates, done, listed);
      if why != Some(true) {
        StopsHere(u, stack, current, expanded, k, at, why);
        return;
      }
    }
    WholeQueue(current);
  }

  lemma TypesGrow(items: seq<Item>, k: nat)
    requires k < |items|
    ensures Types(items[..k + 1]) == Types(items[..k]) + {items[k].typ}
    ensures OnePerType(items) ==> items[k].typ !in Types(items[..k])
  {
  }

  // ----- the whole search

  /** What holds between levels: d levels are done, and the next one is queued. */
  ghost predicate Searched(u: Universe, root: nat, d: nat, queue: seq<Item>, count: map<nat, nat>, visited: set<nat>,
                           candidates: seq<Candidate>)
    requires Closed(u) && root < |u.structs|
  {
    && VisitedAbove(u, root, d, visited)
    && QueueOf(u, root, d, queue, visited)
    && CountsOf(u, root, d, count)
    && Lists(u, root, d, candidates)
  }

  lemma SearchStarts(u: Universe, root: nat)
    requires Closed(u) && root < |u.structs|
    ensures Searched(u, root, 0, [Item(root, [])], map[], {}, [])
  {
    var queue := [Item(root, [])];
    forall t, p | |p| == 0 && Reaches(u, root, t, p)
      ensures Earliest(queue, Item(t, p))
    {
      assert queue[0].typ == t && PathLeq(queue[0].path, p);
    }
  }

  ghost predicate NoneBad(u: Universe, stack: nat, visited: set<nat>) {
    forall t :: t in visited ==> t < |u.structs| && AllSupported(u, stack, t, |u.structs[t]|)
  }

  lemma NoneBadStep(u: Universe, stack: nat, queue: seq<Item>, visited: set<nat>)
    requires InUniverse(u, queue) && InUniverse(u, Unvisited(queue, visited))
    requires NoneBad(u, stack, visited) && SupportedAll(u, stack, Unvisited(queue, visited))
    ensures NoneBad(u, stack, visited + Types(queue))
  {
    InUnvisited(queue, visited);
    forall t | t in Types(queue) && t !in visited
      ensures t < |u.structs| && AllSupported(u, stack, t, |u.structs[t]|)
    {
      var k :| 0 <= k < |queue| && queue[k].typ == t;
      var j := UnvisitedPlace(queue, visited, k);
    }
  }

  /** One whole level: what is kept, and why the search makes progress. */
  lemma SearchStep(u: Universe, root: nat, d: nat, queue: seq<Item>, count: map<nat, nat>, visited: set<nat>,
                   candidates: seq<Candidate>, next: seq<Item>, counts: map<nat, nat>)
    requires Closed(u) && root < |u.structs| && Searched(u, root, d, queue, count, visited, candidates)
    requires InUniverse(u, Unvisited(queue, visited)) && Found(u, Unvisited(queue, visited), next, counts)
    ensures Searched(u, root, d + 1, next, counts, visited + Types(queue),
                     candidates + Emitted(u, Unvisited(queue, visited), count))
    ensures || Remaining(u, visited + Types(queue)) < Remaining(u, visited)
            || (Remaining(u, visited + Types(queue)) == Remaining(u, visited) && next == [])
  {
    VisitedStep(u, root, d, queue, visited);
    QueueStep(u, root, d, queue, visited);
    CountsStep(u, root, d, queue, visited, counts);
    ListsStep(u, root, d, queue, visited, count, candidates);
    SearchShrinks(u, queue, visited);
  }

  // ----- where the search stops, if it does

  /** The order the search checks fields in: level by level, and along index paths within one. */
  ghost predicate Sooner(p: seq<nat>, q: seq<nat>) {
    |p| < |q| || (|p| == |q| && PathLess(p, q))
  }

  /** The first contender, in the order of the search, whose type does not pass. */
  ghost predicate FirstTrouble(u: Universe, root: nat, stack: nat, c: Candidate)
    requires Closed(u) && root < |u.structs|
  {
    && Contender(u, root, c) && Verdict(u, c.typ, stack) != Some(true)
    && forall x :: Contender(u, root, x) && Sooner(x.index, c.index) ==> Verdict(u, x.typ, stack) == Some(true)
  }

  ghost predicate StopsWith(u: Universe, root: nat, stack: nat, why: Option<bool>)
    requires Closed(u) && root < |u.structs|
  {
    exists c :: FirstTrouble(u, root, stack, c) && Verdict(u, c.typ, stack) == why
  }

  /** One contender comes first, so the search stops in one way at most. */
  lemma OneFirstTrouble(u: Universe, root: nat, stack: nat, c: Candidate, x: Candidate)
    requires Closed(u) && root < |u.structs| && FirstTrouble(u, root, stack, c) && FirstTrouble(u, root, stack, x)
    ensures c == x
  {
    PathLeqTotal(c.index, x.index);
    assert c.index == x.index || Sooner(c.index, x.index) || Sooner(x.index, c.index);
  }

  lemma CheckedContender(u: Universe, root: nat, stack: nat, x: Candidate)
    requires Closed(u) && root < |u.structs| && Contender(u, root, x)
    ensures var t := Owner(u, root, x.index).value;
            x.index != [] && VerdictAt(u, stack, t, x.index[|x.index| - 1]) == Verdict(u, x.typ, stack)
  {
  }

  /** A contender from a level already done has passed. */
  lemma ShallowPasses(u: Universe, root: nat, stack: nat, d: nat, visited: set<nat>, x: Candidate)
    requires Closed(u) && root < |u.structs| && VisitedAbove(u, root, d, visited) && NoneBad(u, stack, visited)
    requires Contender(u, root, x) && |x.index| <= d
    ensures Verdict(u, x.typ, stack) == Some(true)
  {
    CheckedContender(u, root, stack, x);
    assert AtDepth(u, root, Owner(u, root, x.index).value, |x.index[..|x.index| - 1]|);
  }

  lemma PathsTellOrder(items: seq<Item>, d: nat, j: nat, k: nat, a: nat, b: nat)
    requires Ordered(items, d) && j < |items| && k < |items|
    requires PathLess(items[j].path + [a], items[k].path + [b])
    ensures j < k || (j == k && a < b)
  {
    PathLeqStep(items[j].path, items[k].path, a, b);
    if k < j {
      PathLeqTotal(items[j].path, items[k].path);
    }
  }

  /** A contender checked earlier in the level that stops has passed. */
  lemma EarlierPasses(u: Universe, root: nat, stack: nat, d: nat, queue: seq<Item>, visited: set<nat>, k: nat, i: nat,
                      why: Option<bool>, x: Candidate)
    requires Closed(u) && root < |u.structs| && VisitedAbove(u, root, d, visited) && QueueOf(u, root, d, queue, visited)
    requires InUniverse(u, Unvisited(queue, visited)) && StopsLevel(u, stack, Unvisited(queue, visited), k, i, why)
    requires Contender(u, root, x) && |x.index| == d + 1 && PathLess(x.index, Unvisited(queue, visited)[k].path + [i])
    ensures Verdict(u, x.typ, stack) == Some(true)
  {
    var novel := Unvisited(queue, visited);
    var j := ContenderIsEmitted(u, root, d, queue, visited, x);
    UnvisitedOrdered(queue, visited, d);
    EndsAt(x.index, novel[j].path, x.index[d]);
    PathsTellOrder(novel, d, j, k, x.index[d], i);
    CheckedContender(u, root, stack, x);
  }

  lemma EndsAt(p: seq<nat>, q: seq<nat>, i: nat)
    requires p != [] && p[..|p| - 1] == q && p[|p| - 1] == i
    ensures p == q + [i]
  {
  }

  /** A level stops on a contender, the first in the whole search that does not pass. */
  lemma StopIsFirstTrouble(u: Universe, root: nat, stack: nat, d: nat, queue: seq<Item>, visited: set<nat>, k: nat,
                           i: nat, why: Option<bool>)
    requires Closed(u) && root < |u.structs| && VisitedAbove(u, root, d, visited) && QueueOf(u, root, d, queue, visited)
    requires InUniverse(u, Unvisited(queue, visited)) && NoneBad(u, stack, visited)
    requires StopsLevel(u, stack, Unvisited(queue, visited), k, i, why)
    ensures StopsWith(u, root, stack, why)
  {
    var it := Unvisited(queue, visited)[k];
    var index := it.path + [i];
    var c := CandidateOf(u.structs[it.typ][i], index, |it.path|);
    InUnvisited(queue, visited);
    assert it in Unvisited(queue, visited);
    assert index[..|index| - 1] == it.path && index[|index| - 1] == i;
    EmittedIsContender(u, root, d, queue, visited, it, c);
    forall x | Contender(u, root, x) && Sooner(x.index, c.index)
      ensures Verdict(u, x.typ, stack) == Some(true)
    {
      if |x.index| <= d {
        ShallowPasses(u, root, stack, d, visited, x);
      } else {
        EarlierPasses(u, root, stack, d, queue, visited, k, i, why, x);
      }
    }
    assert FirstTrouble(u, root, stack, c);
  }

  /** When nothing is queued the list is complete, and every contender has passed. */
  lemma SearchEnds(u: Universe, root: nat, stack: nat, d: nat, count: map<nat, nat>, visited: set<nat>,
                   candidates: seq<Candidate>)
    requires Closed(u) && root < |u.structs| && Searched(u, root, d, [], count, visited, candidates)
    requires NoneBad(u, stack, visited)
    ensures ListsAll(u, root, candidates) && AllPass(u, root, stack)
  {
    forall t, e: nat | AtDepth(u, root, t, e)
      ensures e < d
    {
      EmptyQueueEndsSearch(u, root, d, visited, t, e);
    }
    forall c | Contender(u, root, c)
      ensures |c.index| <= d && Verdict(u, c.typ, stack) == Some(true)
    {
      assert AtDepth(u, root, Owner(u, root, c.index).value, |c.index[..|c.index| - 1]|);
      ShallowPasses(u, root, stack, d, visited, c);
    }
    forall c
      ensures multiset(candidates)[c] ==
                if !Contender(u, root, c) then 0 else if OwnerDoubled(u, root, c) then 2 else 1
    {
      assert multiset(candidates)[c] == Weight(u, root, d, c);
    }
  }

  function Remaining(u: Universe, visited: set<nat>): nat {
    |Below(|u.structs|) - visited|
  }

  /** A level that expands anything leaves fewer structs to expand. */
  lemma SearchShrinks(u: Universe, queue: seq<Item>, visited: set<nat>)
    requires InUniverse(u, queue) && InUniverse(u, Unvisited(queue, visited))
    ensures var next := FirstOf(Occurrences(u, Unvisited(queue, visited)));
            || Remaining(u, visited + Types(queue)) < Remaining(u, visited)
            || (Remaining(u, visited + Types(queue)) == Remaining(u, visited) && next == [])
  {
    InUnvisited(queue, visited);
    var left, rest := Below(|u.structs|) - visited, Below(|u.structs|) - (visited + Types(queue));
    if Unvisited(queue, visited) == [] {
      forall t | t in Types(queue)
        ensures t in visited
      {
        var k :| 0 <= k < |queue| && queue[k].typ == t;
        assert queue[k] in queue;
      }
      assert rest == left;
    } else {
      var it := Unvisited(queue, visited)[0];
      assert it in Unvisited(queue, visited);
      var k :| 0 <= k < |queue| && queue[k] == it;
      assert it.typ in left && it.typ !in rest;
      SubsetIsSmaller(rest, left);
    }
  }

  function Below(n: nat): (s: set<nat>)
    ensures forall t: nat :: t in s <==> t < n
  {
    if n == 0 then {} else Below(n - 1) + {n - 1}
  }

  lemma SubsetIsSmaller(a: set<nat>, b: set<nat>)
    requires a < b
    ensures |a| < |b|
  {
    assert b == a + (b - a);
  }

  /** What becomes of a search: it runs out of room, it is refused, or it lists candidates. */
  datatype Outcome = Overflow | Refused | Listed(candidates: seq<Candidate>)

  /** What happens is decided by the first contender that does not pass. */
  ghost predicate Settles(u: Universe, root: nat, stack: nat, r: Outcome)
    requires Closed(u) && root < |u.structs|
  {
    && (r.Overflow? <==> StopsWith(u, root, stack, None))
    && (r.Refused? <==> StopsWith(u, root, stack, Some(false)))
    && (r.Listed? <==> AllPass(u, root, stack))
    && (r.Listed? ==> ListsAll(u, root, r.candidates))
  }

  ghost predicate AllPass(u: Universe, root: nat, stack: nat)
    requires Closed(u) && root < |u.structs|
  {
    forall c :: Contender(u, root, c) ==> Verdict(u, c.typ, stack) == Some(true)
  }

  lemma StopsOnce(u: Universe, root: nat, stack: nat, why: Option<bool>, other: Option<bool>)
    requires Closed(u) && root < |u.structs| && StopsWith(u, root, stack, why) && StopsWith(u, root, stack, other)
    ensures other == why && why != Some(true) && !AllPass(u, root, stack)
  {
    var c :| FirstTrouble(u, root, stack, c) && Verdict(u, c.typ, stack) == why;
    var x :| FirstTrouble(u, root, stack, x) && Verdict(u, x.typ, stack) == other;
    OneFirstTrouble(u, root, stack, c, x);
  }

  lemma TwoVerdicts(why: Option<bool>)
    ensures why.None? || why == Some(true) || why == Some(false)
  {
    match why
    case None =>
    case Some(v) =>
      if v {
        assert why == Some(true);
      } else {
        assert why == Some(false);
      }
  }

  lemma StopSettles(u: Universe, root: nat, stack: nat, why: Option<bool>)
    requires Closed(u) && root < |u.structs| && StopsWith(u, root, stack, why)
    ensures Settles(u, root, stack, if why.None? then Overflow else Refused)
  {
    StopsOnce(u, root, stack, why, why);
    TwoVerdicts(why);
    if StopsWith(u, root, stack, None) {
      StopsOnce(u, root, stack, why, None);
    }
    if StopsWith(u, root, stack, Some(false)) {
      StopsOnce(u, root, stack, why, Some(false));
    }
  }

  lemma EndSettles(u: Universe, root: nat, stack: nat, candidates: seq<Candidate>)
    requires Closed(u) && root < |u.structs| && ListsAll(u, root, candidates) && AllPass(u, root, stack)
    ensures Settles(u, root, stack, Listed(candidates))
  {
  }

  /**
   Embedding cycles never hold the search up. It stops at the first contender, level by level
   and along index paths, whose type check returns an error or never returns; if there is
   none it lists every contender, twice if the contender's struct is doubled, and nothing else.
   */
  method CollectCandidates(u: Universe, root: nat, stack: nat) returns (r: Outcome)
    requires Closed(u) && root < |u.structs|
    ensures Settles(u, root, stack, r)
  {
    var candidates: seq<Candidate> := [];
    var next := [Item(root, [])];
    var counts: map<nat, nat> := map[];
    var visited: set<nat> := {};
    ghost var d := 0;
    SearchStarts(u, root);
    while |next| > 0
      invariant Searched(u, root, d, next, counts, visited, candidates)
      invariant NoneBad(u, stack, visited)
      decreases Remaining(u, visited), |next|
    {
      var current, count := next, counts;
      ghost var before, listed := visited, candidates;
      FreshInUniverse(u, current, visited);
      var why;
      ghost var item, at;
      why, next, counts, visited, candidates, item, at := ExpandLevel(u, stack, current, count, visited, candidates);
      if why != Some(true) {
        StopIsFirstTrouble(u, root, stack, d, current, before, item, at, why);
        StopSettles(u, root, stack, why);
        return if why.None? then Overflow else Refused;
      }
      SearchStep(u, root, d, current, count, before, listed, next, counts);
      NoneBadStep(u, stack, current, before);
      d := d + 1;
    }
    SearchEnds(u, root, stack, d, counts, visited, candidates);
    EndSettles(u, root, stack, candidates);
    r := Listed(candidates);
  }
}
