/** Calls that nest: a chain of callers and callees, and what such chains from one caller reach. */
module Chains {

  predicate CallsNext<T>(calls: (T, T) -> bool, path: seq<T>, i: nat)
    requires i + 1 < |path|
  {
    calls(path[i], path[i + 1])
  }

  ghost predicate Chain<T(!new)>(calls: (T, T) -> bool, path: seq<T>) {
    path != [] && forall i :: 0 <= i < |path| - 1 ==> CallsNext(calls, path, i)
  }

  ghost predicate Repeats<T(!new)>(path: seq<T>) {
    exists i, j :: 0 <= i < j < |path| && path[i] == path[j]
  }

  /** Some chain from t gets stuck, or is this long. */
  ghost predicate Fills<T(!new)>(calls: (T, T) -> bool, stuck: T -> bool, t: T, length: int) {
    exists path :: Chain(calls, path) && path[0] == t && (stuck(path[|path| - 1]) || |path| >= length)
  }

  /** Some chain from t gets stuck, or comes back to where it was. */
  ghost predicate Loops<T(!new)>(calls: (T, T) -> bool, stuck: T -> bool, t: T) {
    exists path :: Chain(calls, path) && path[0] == t && (stuck(path[|path| - 1]) || Repeats(path))
  }

  ghost predicate Throughout<T(!new)>(calls: (T, T) -> bool, holds: T -> bool, t: T) {
    forall path :: Chain(calls, path) && path[0] == t ==> holds(path[|path| - 1])
  }

  lemma CallerInFront<T(!new)>(calls: (T, T) -> bool, a: T, path: seq<T>)
    requires Chain(calls, path) && calls(a, path[0])
    ensures Chain(calls, [a] + path) && ([a] + path)[|path|] == path[|path| - 1]
  {
    var longer := [a] + path;
    forall i | 0 <= i < |longer| - 1
      ensures CallsNext(calls, longer, i)
    {
      if i > 0 {
        assert CallsNext(calls, path, i - 1);
        assert longer[i] == path[i - 1] && longer[i + 1] == path[i];
      }
    }
  }

  lemma RestIsChain<T(!new)>(calls: (T, T) -> bool, path: seq<T>, i: nat)
    requires Chain(calls, path) && i < |path|
    ensures Chain(calls, path[i..])
  {
    forall k | 0 <= k < |path| - i - 1
      ensures CallsNext(calls, path[i..], k)
    {
      assert CallsNext(calls, path, i + k);
    }
  }

  lemma CallerFills<T(!new)>(calls: (T, T) -> bool, stuck: T -> bool, a: T, b: T, length: int)
    requires calls(a, b) && Fills(calls, stuck, b, length)
    ensures Fills(calls, stuck, a, length + 1)
  {
    var path :| Chain(calls, path) && path[0] == b && (stuck(path[|path| - 1]) || |path| >= length);
    CallerInFront(calls, a, path);
    assert ([a] + path)[0] == a;
  }

  lemma OneFills<T(!new)>(calls: (T, T) -> bool, stuck: T -> bool, t: T, length: int)
    requires length <= 1 || stuck(t)
    ensures Fills(calls, stuck, t, length)
  {
    var path := [t];
    assert Chain(calls, path) && path[0] == t;
  }

  lemma ThroughoutCallee<T(!new)>(calls: (T, T) -> bool, holds: T -> bool, a: T, b: T)
    requires calls(a, b) && Throughout(calls, holds, a)
    ensures Throughout(calls, holds, b)
  {
    forall path | Chain(calls, path) && path[0] == b
      ensures holds(path[|path| - 1])
    {
      CallerInFront(calls, a, path);
      assert ([a] + path)[0] == a;
    }
  }

  lemma ThroughoutHere<T(!new)>(calls: (T, T) -> bool, holds: T -> bool, t: T)
    requires Throughout(calls, holds, t)
    ensures holds(t)
  {
    var path := [t];
    assert Chain(calls, path) && path[0] == t;
  }

  lemma FilledBy<T(!new)>(calls: (T, T) -> bool, stuck: T -> bool, t: T, length: int) returns (path: seq<T>)
    requires Fills(calls, stuck, t, length)
    ensures Chain(calls, path) && path[0] == t && (stuck(path[|path| - 1]) || |path| >= length)
  {
    path :| Chain(calls, path) && path[0] == t && (stuck(path[|path| - 1]) || |path| >= length);
  }

  lemma LoopedBy<T(!new)>(calls: (T, T) -> bool, stuck: T -> bool, t: T) returns (path: seq<T>)
    requires Loops(calls, stuck, t)
    ensures Chain(calls, path) && path[0] == t && (stuck(path[|path| - 1]) || Repeats(path))
  {
    path :| Chain(calls, path) && path[0] == t && (stuck(path[|path| - 1]) || Repeats(path));
  }

  /** Where chains of this length repeat, filling it is looping. */
  lemma FillingLoops<T(!new)>(calls: (T, T) -> bool, stuck: T -> bool, t: T, length: int)
    requires Fills(calls, stuck, t, length)
    requires forall path :: Chain(calls, path) && path[0] == t && |path| >= length ==> Repeats(path)
    ensures Loops(calls, stuck, t)
  {
  }
}
