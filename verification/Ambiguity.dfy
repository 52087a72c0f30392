/**
 The search counts how often the level above embeds a struct, not how many paths lead to
 it. This module proves where the two differ: ambiguity higher up is not passed down.
 */
module Ambiguity {
  import opened Options
  import opened Sorting
  import opened TypeGraph

  ghost predicate TwoPaths(u: Universe, root: nat, t: nat, p: seq<nat>, q: seq<nat>)
    requires Closed(u) && root < |u.structs|
  {
    p != q && |p| == |q| && Reaches(u, root, t, p) && Reaches(u, root, t, q)
  }

  /** More than one shortest embedding path leads to t. */
  ghost predicate Ambiguous(u: Universe, root: nat, t: nat, d: nat)
    requires Closed(u) && root < |u.structs|
  {
    AtDepth(u, root, t, d) && exists p, q :: |p| == d && TwoPaths(u, root, t, p, q)
  }

  /** t, or a struct on the way to it, is embedded more than once by the level above it. */
  ghost predicate DoubledAbove(u: Universe, root: nat, t: nat, d: nat)
    requires Closed(u) && root < |u.structs|
    decreases d
  {
    && d > 0
    && (|| Doubled(u, root, t, d)
        || exists s, i :: EmbedsFrom(u, root, s, i, t, d) && DoubledAbove(u, root, s, d - 1))
  }

  lemma LastEmbedding(u: Universe, root: nat, t: nat, d: nat, p: seq<nat>) returns (s: nat)
    requires Closed(u) && root < |u.structs| && AtDepth(u, root, t, d) && Reaches(u, root, t, p) && |p| == d > 0
    ensures EmbedsFrom(u, root, s, p[d - 1], t, d) && Reaches(u, root, s, p[..d - 1])
  {
    s := TypeAt(u, root, p[..d - 1]).value;
    forall r | Reaches(u, root, s, r)
      ensures d - 1 <= |r|
    {
      StepReaches(u, root, s, r, p[d - 1]);
    }
  }

  lemma SameLastStep(p: seq<nat>, q: seq<nat>)
    requires |p| == |q| > 0 && p != q && p[|p| - 1] == q[|q| - 1]
    ensures p[..|p| - 1] != q[..|q| - 1]
  {
  }

  lemma TwoEmbeddingsDouble(u: Universe, root: nat, s: nat, i: nat, s': nat, i': nat, t: nat, d: nat)
    requires Closed(u) && root < |u.structs| && EmbedsFrom(u, root, s, i, t, d) && EmbedsFrom(u, root, s', i', t, d)
    requires s != s' || i != i'
    ensures Doubled(u, root, t, d)
  {
  }

  lemma SameStepBefore(u: Universe, root: nat, s: nat, t: nat, d: nat, p: seq<nat>, q: seq<nat>)
    requires Closed(u) && root < |u.structs| && |p| == |q| == d > 0 && p != q && p[d - 1] == q[d - 1]
    requires EmbedsFrom(u, root, s, p[d - 1], t, d)
    requires Reaches(u, root, s, p[..d - 1]) && Reaches(u, root, s, q[..d - 1])
    ensures Ambiguous(u, root, s, d - 1)
  {
    SameLastStep(p, q);
    assert TwoPaths(u, root, s, p[..d - 1], q[..d - 1]);
  }

  /** Two shortest paths part at the last step, or the struct that embeds t last is itself ambiguous. */
  lemma AmbiguityStep(u: Universe, root: nat, t: nat, d: nat) returns (s: nat, i: nat)
    requires Closed(u) && root < |u.structs| && Ambiguous(u, root, t, d) && d > 0
    ensures Doubled(u, root, t, d) || (EmbedsFrom(u, root, s, i, t, d) && Ambiguous(u, root, s, d - 1))
  {
    var p, q :| |p| == d && TwoPaths(u, root, t, p, q);
    s := LastEmbedding(u, root, t, d, p);
    i := p[d - 1];
    var s' := LastEmbedding(u, root, t, d, q);
    if s == s' && i == q[d - 1] {
      SameStepBefore(u, root, s, t, d, p, q);
    } else {
      TwoEmbeddingsDouble(u, root, s, i, s', q[d - 1], t, d);
    }
  }

  lemma {:induction false} AmbiguityHasASource(u: Universe, root: nat, t: nat, d: nat)
    requires Closed(u) && root < |u.structs| && Ambiguous(u, root, t, d)
    ensures DoubledAbove(u, root, t, d)
    decreases d
  {
    assert d > 0;
    var s, i := AmbiguityStep(u, root, t, d);
    if !Doubled(u, root, t, d) {
      AmbiguityHasASource(u, root, s, d - 1);
    }
  }

  lemma ExtendedPathsDiffer(u: Universe, root: nat, s: nat, p: seq<nat>, i: nat, s': nat, q: seq<nat>, j: nat, t: nat)
    requires Closed(u) && root < |u.structs| && Reaches(u, root, s, p) && Reaches(u, root, s', q) && |p| == |q|
    requires s < |u.structs| && s' < |u.structs| && EmbedAt(u, s, i) == Some(t) && EmbedAt(u, s', j) == Some(t)
    requires p != q || i != j
    ensures TwoPaths(u, root, t, p + [i], q + [j])
  {
    StepReaches(u, root, s, p, i);
    StepReaches(u, root, s', q, j);
    assert (p + [i])[..|p|] == p && (q + [j])[..|q|] == q;
    assert (p + [i])[|p|] == i && (q + [j])[|q|] == j;
  }

  lemma PathTo(u: Universe, root: nat, s: nat, i: nat, t: nat, d: nat) returns (p: seq<nat>)
    requires Closed(u) && root < |u.structs| && EmbedsFrom(u, root, s, i, t, d)
    ensures |p| == d - 1 && Reaches(u, root, s, p)
  {
    p :| |p| == d - 1 && Reaches(u, root, s, p);
  }

  lemma TwoEmbeddingsAreAmbiguous(u: Universe, root: nat, s: nat, i: nat, s': nat, i': nat, t: nat, d: nat)
    requires Closed(u) && root < |u.structs| && AtDepth(u, root, t, d)
    requires EmbedsFrom(u, root, s, i, t, d) && EmbedsFrom(u, root, s', i', t, d) && (s != s' || i != i')
    ensures Ambiguous(u, root, t, d)
  {
    var p := PathTo(u, root, s, i, t, d);
    var q := PathTo(u, root, s', i', t, d);
    if p == q {
      assert Some(s) == TypeAt(u, root, p) == Some(s');
    }
    ExtendedPathsDiffer(u, root, s, p, i, s', q, i', t);
  }

  lemma DoubledIsAmbiguous(u: Universe, root: nat, t: nat, d: nat)
    requires Closed(u) && root < |u.structs| && AtDepth(u, root, t, d) && Doubled(u, root, t, d)
    ensures Ambiguous(u, root, t, d)
  {
    var s, i, s', i' :|
      EmbedsFrom(u, root, s, i, t, d) && EmbedsFrom(u, root, s', i', t, d) && (s, i) != (s', i');
    TwoEmbeddingsAreAmbiguous(u, root, s, i, s', i', t, d);
  }

  lemma AmbiguityIsPassedDown(u: Universe, root: nat, s: nat, i: nat, t: nat, d: nat)
    requires Closed(u) && root < |u.structs| && AtDepth(u, root, t, d) && EmbedsFrom(u, root, s, i, t, d)
    requires Ambiguous(u, root, s, d - 1)
    ensures Ambiguous(u, root, t, d)
  {
    var p, q :| |p| == d - 1 && TwoPaths(u, root, s, p, q);
    ExtendedPathsDiffer(u, root, s, p, i, s, q, i, t);
  }

  lemma {:induction false} DoublingIsAmbiguous(u: Universe, root: nat, t: nat, d: nat)
    requires Closed(u) && root < |u.structs| && AtDepth(u, root, t, d) && DoubledAbove(u, root, t, d)
    ensures Ambiguous(u, root, t, d)
    decreases d
  {
    if Doubled(u, root, t, d) {
      DoubledIsAmbiguous(u, root, t, d);
    } else {
      var s, i :| EmbedsFrom(u, root, s, i, t, d) && DoubledAbove(u, root, s, d - 1);
      DoublingIsAmbiguous(u, root, s, d - 1);
      AmbiguityIsPassedDown(u, root, s, i, t, d);
    }
  }

  /** A struct is reached twice at its least depth exactly when some doubling lies on the way. */
  lemma AmbiguityIsInherited(u: Universe, root: nat, t: nat, d: nat)
    requires Closed(u) && root < |u.structs| && AtDepth(u, root, t, d)
    ensures Ambiguous(u, root, t, d) <==> DoubledAbove(u, root, t, d)
  {
    if Ambiguous(u, root, t, d) {
      AmbiguityHasASource(u, root, t, d);
    }
    if DoubledAbove(u, root, t, d) {
      DoublingIsAmbiguous(u, root, t, d);
    }
  }

  // ----- the counter sees only the last step

  function Embed(id: nat): StructField {
    StructField("E", true, true, Struct(id), false, "", false)
  }

  const X := StructField("X", true, false, Other(0), false, "", false)

  /** 0 embeds 1 and 2, both embed 3, 3 embeds 4, and 4 has the field X. */
  const Diamond: Universe :=
    Universe([[Embed(1), Embed(2)], [Embed(3)], [Embed(3)], [Embed(4)], [X]], [Scalar("int")])

  ghost predicate DiamondPaths(t: nat, p: seq<nat>) {
    || (t == 0 && p == [])
    || (t == 1 && p == [0])
    || (t == 2 && p == [1])
    || (t == 3 && (p == [0, 0] || p == [1, 0]))
    || (t == 4 && (p == [0, 0, 0] || p == [1, 0, 0]))
  }

  function DiamondStep(s: nat, i: nat): Option<nat> {
    if s == 0 && i == 0 then Some(1)
    else if s == 0 && i == 1 then Some(2)
    else if (s == 1 || s == 2) && i == 0 then Some(3)
    else if s == 3 && i == 0 then Some(4)
    else None
  }

  lemma DiamondSteps()
    ensures Closed(Diamond)
    ensures forall s, i :: 0 <= s < 5 && 0 <= i ==> EmbedAt(Diamond, s, i) == DiamondStep(s, i)
    ensures forall s, i :: 0 <= s < 5 && 0 <= i ==> (Exposed(Diamond, s, i) <==> s == 4 && i == 0)
  {
  }

  ghost predicate StepsTo(s: nat, before: seq<nat>, i: nat, t: nat) {
    DiamondPaths(s, before) && DiamondStep(s, i) == Some(t)
  }

  lemma DiamondPathsExtend(before: seq<nat>, i: nat, t: nat)
    ensures DiamondPaths(t, before + [i]) <==> exists s: nat :: StepsTo(s, before, i, t)
  {
    if DiamondPaths(t, before + [i]) {
      assert before == (before + [i])[..|before|];
      assert i == (before + [i])[|before|];
      assert if t <= 2 then StepsTo(0, before, i, t)
             else if t == 3 then StepsTo(1, before, i, t) || StepsTo(2, before, i, t)
             else StepsTo(3, before, i, t);
    }
  }

  lemma {:induction false} OnlyDiamondPaths(t: nat, p: seq<nat>)
    requires Closed(Diamond)
    ensures Reaches(Diamond, 0, t, p) <==> DiamondPaths(t, p)
    decreases |p|
  {
    if p != [] {
      var before, i := p[..|p| - 1], p[|p| - 1];
      assert p == before + [i];
      DiamondSteps();
      DiamondPathsExtend(before, i, t);
      forall s: nat
        ensures Reaches(Diamond, 0, s, before) <==> DiamondPaths(s, before)
      {
        OnlyDiamondPaths(s, before);
      }
      var parent := TypeAt(Diamond, 0, before);
      if parent.Some? {
        assert Reaches(Diamond, 0, parent.value, before);
        assert Reaches(Diamond, 0, t, p) ==> StepsTo(parent.value, before, i, t);
      }
      forall s: nat | StepsTo(s, before, i, t)
        ensures Reaches(Diamond, 0, t, p)
      {
        assert Reaches(Diamond, 0, s, before);
      }
    }
  }

  lemma DiamondDepths()
    requires Closed(Diamond)
    ensures AtDepth(Diamond, 0, 4, 3) && AtDepth(Diamond, 0, 3, 2)
    ensures forall t: nat :: AtDepth(Diamond, 0, t, 2) ==> t == 3
  {
    forall t: nat, p {
      OnlyDiamondPaths(t, p);
    }
    assert Reaches(Diamond, 0, 4, [0, 0, 0]) && Reaches(Diamond, 0, 3, [0, 0]);
  }

  lemma TheOnlyContender(c: Candidate)
    requires Closed(Diamond) && Contender(Diamond, 0, c)
    ensures c == Candidate("X", Other(0), false, [0, 0, 0, 0], 3, false)
  {
    DiamondSteps();
    var p := c.index[..|c.index| - 1];
    OnlyDiamondPaths(Owner(Diamond, 0, c.index).value, p);
    OnlyDiamondPaths(4, [0, 0, 0]);
    assert c.index == p + [c.index[|c.index| - 1]];
    assert !PathLeq([1, 0, 0], [0, 0, 0]);
  }

  /**
   Two shortest paths lead to the struct of X, so a selector would be ambiguous; the level
   above embeds that struct once, so the field is exposed.
   */
  lemma AmbiguousFieldIsExposed()
    ensures Closed(Diamond) && Ambiguous(Diamond, 0, 4, 3) && !Doubled(Diamond, 0, 4, 3)
    ensures Dominates(Diamond, 0, Candidate("X", Other(0), false, [0, 0, 0, 0], 3, false))
  {
    DiamondSteps();
    DiamondDepths();
    OnlyDiamondPaths(4, [0, 0, 0]);
    OnlyDiamondPaths(4, [1, 0, 0]);
    assert TwoPaths(Diamond, 0, 4, [0, 0, 0], [1, 0, 0]);
    var index := [0, 0, 0, 0];
    assert index[..3] == [0, 0, 0];
    forall q | |q| == 3 && Reaches(Diamond, 0, 4, q)
      ensures PathLeq([0, 0, 0], q)
    {
      OnlyDiamondPaths(4, q);
    }
    forall x | Contender(Diamond, 0, x) {
      TheOnlyContender(x);
    }
  }
}
