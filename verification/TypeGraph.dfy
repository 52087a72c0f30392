/**
 Go types as a graph. Structs are numbered, and their fields may embed other structs, or
 themselves, directly or through a pointer. Every other type is numbered too, and its
 element or key may lead back to it: a slice of itself, a pointer to itself. What a struct
 exposes to JSON is defined here by embedding paths alone; the search that finds it is
 FieldSearch.
 */
module TypeGraph {
  import opened Options
  import opened Sorting

  datatype Type = Struct(id: nat) | Other(id: nat)

  /** What a type that is no struct is made of. */
  datatype Node =
    | Pointer(elem: Type)
    | Slice(elem: Type)
    | Array(elem: Type)
    | Map(key: Type, elem: Type)
    | Scalar(kind: string)
    | Unsupported(kind: string)

  /** A field as reflection presents it; tag is its valid JSON name, empty if it has none. */
  datatype StructField = StructField(
    name: string, exported: bool, anonymous: bool, typ: Type,
    dash: bool, tag: string, omitEmpty: bool)

  datatype Universe = Universe(structs: seq<seq<StructField>>, types: seq<Node>)

  function NodeOf(u: Universe, t: Type): Node {
    if t.Other? && t.id < |u.types| then u.types[t.id] else Scalar("struct")
  }

  function Deref(u: Universe, t: Type): Type {
    if NodeOf(u, t).Pointer? then NodeOf(u, t).elem else t
  }

  predicate Ignored(u: Universe, f: StructField) {
    (if f.anonymous then !f.exported && !Deref(u, f.typ).Struct? else !f.exported) || f.dash
  }

  function Embedded(u: Universe, f: StructField): Option<nat> {
    if f.anonymous && f.tag == "" && Deref(u, f.typ).Struct? then Some(Deref(u, f.typ).id) else None
  }

  /**
   The check of a field's type, with room for this many nested calls: Some(true) if it
   returns content, Some(false) if it returns an error, None if it needs more room. It
   stops at structs, which keeps recursive structs finite, and at nothing else.
   */
  function Verdict(u: Universe, t: Type, stack: nat): Option<bool>
    decreases stack
  {
    if stack == 0 then None
    else
      match NodeOf(u, t)
      case Unsupported(_) => Some(false)
      case Pointer(e) => Verdict(u, e, stack - 1)
      case Slice(e) => Verdict(u, e, stack - 1)
      case Array(e) => Verdict(u, e, stack - 1)
      case Map(k, e) =>
        var key := Verdict(u, k, stack - 1);
        if key == Some(true) then Verdict(u, e, stack - 1) else key
      case Scalar(_) => Some(true)
  }

  /** Every embedded struct is in the universe. */
  ghost predicate Closed(u: Universe) {
    forall t, i :: 0 <= t < |u.structs| && 0 <= i < |u.structs[t]| && Embedded(u, u.structs[t][i]).Some? ==>
                     Embedded(u, u.structs[t][i]).value < |u.structs|
  }

  /** The struct that field i of t brings in, None if it brings in none. */
  function EmbedAt(u: Universe, t: nat, i: nat): Option<nat>
    requires t < |u.structs|
  {
    if i < |u.structs[t]| && !Ignored(u, u.structs[t][i]) then Embedded(u, u.structs[t][i]) else None
  }

  predicate Exposed(u: Universe, t: nat, i: nat)
    requires t < |u.structs|
  {
    i < |u.structs[t]| && !Ignored(u, u.structs[t][i]) && Embedded(u, u.structs[t][i]).None? && u.structs[t][i].exported
  }

  /** The struct reached by embedding fields in turn, None if some step embeds nothing. */
  ghost function TypeAt(u: Universe, root: nat, p: seq<nat>): (t: Option<nat>)
    requires Closed(u) && root < |u.structs|
    ensures t.Some? ==> t.value < |u.structs|
  {
    if p == [] then Some(root)
    else
      var parent := TypeAt(u, root, p[..|p| - 1]);
      if parent.None? then None else EmbedAt(u, parent.value, p[|p| - 1])
  }

  ghost predicate Reaches(u: Universe, root: nat, t: nat, p: seq<nat>)
    requires Closed(u) && root < |u.structs|
  {
    TypeAt(u, root, p) == Some(t)
  }

  /** d is the length of the shortest embedding path to t. */
  ghost predicate AtDepth(u: Universe, root: nat, t: nat, d: nat)
    requires Closed(u) && root < |u.structs|
  {
    && (exists p :: |p| == d && Reaches(u, root, t, p))
    && (forall q :: Reaches(u, root, t, q) ==> d <= |q|)
  }

  /** p is the first, in declaration order, of the shortest embedding paths to t. */
  ghost predicate LeastPath(u: Universe, root: nat, t: nat, p: seq<nat>)
    requires Closed(u) && root < |u.structs|
  {
    && Reaches(u, root, t, p)
    && AtDepth(u, root, t, |p|)
    && (forall q :: |q| == |p| && Reaches(u, root, t, q) ==> PathLeq(p, q))
  }

  /** The structs one level up embed t more than once between them. */
  ghost predicate Doubled(u: Universe, root: nat, t: nat, d: nat)
    requires Closed(u) && root < |u.structs|
  {
    exists s, i, s', i' :: EmbedsFrom(u, root, s, i, t, d) && EmbedsFrom(u, root, s', i', t, d) && (s, i) != (s', i')
  }

  ghost predicate EmbedsFrom(u: Universe, root: nat, s: nat, i: nat, t: nat, d: nat)
    requires Closed(u) && root < |u.structs|
  {
    d > 0 && s < |u.structs| && AtDepth(u, root, s, d - 1) && EmbedAt(u, s, i) == Some(t)
  }

  // ----- what is exposed, and what wins

  datatype Candidate = Candidate(
    name: string, typ: Type, omitEmpty: bool, index: seq<nat>, depth: nat, tagged: bool)

  function CandidateOf(f: StructField, index: seq<nat>, depth: nat): Candidate {
    Candidate(if f.tag != "" then f.tag else f.name, f.typ, f.omitEmpty, index, depth, f.tag != "")
  }

  ghost function Owner(u: Universe, root: nat, index: seq<nat>): Option<nat>
    requires Closed(u) && root < |u.structs|
  {
    if index == [] then None else TypeAt(u, root, index[..|index| - 1])
  }

  /** An exposed field of a reachable struct, indexed along the struct's least path. */
  ghost predicate Contender(u: Universe, root: nat, c: Candidate)
    requires Closed(u) && root < |u.structs|
  {
    var t := Owner(u, root, c.index);
    && t.Some?
    && LeastPath(u, root, t.value, c.index[..|c.index| - 1])
    && Exposed(u, t.value, c.index[|c.index| - 1])
    && c == CandidateOf(u.structs[t.value][c.index[|c.index| - 1]], c.index, |c.index| - 1)
  }

  ghost predicate OwnerDoubled(u: Universe, root: nat, c: Candidate)
    requires Closed(u) && root < |u.structs| && Contender(u, root, c)
  {
    Doubled(u, root, Owner(u, root, c.index).value, |c.index| - 1)
  }

  ghost predicate Rivals(u: Universe, root: nat, c: Candidate, x: Candidate)
    requires Closed(u) && root < |u.structs|
  {
    Contender(u, root, x) && x.name == c.name && x.depth == c.depth && x != c
  }

  /**
   The dominance rule: the least depth at which the name occurs decides; there the field
   must be alone, or alone in being tagged, and its struct not brought in twice.
   */
  ghost predicate Dominates(u: Universe, root: nat, c: Candidate)
    requires Closed(u) && root < |u.structs|
  {
    && Contender(u, root, c)
    && !OwnerDoubled(u, root, c)
    && (forall x :: Contender(u, root, x) && x.name == c.name ==> c.depth <= x.depth)
    && ((forall x :: !Rivals(u, root, c, x)) || (c.tagged && forall x :: Rivals(u, root, c, x) ==> !x.tagged))
  }

  // ----- facts about paths and depths

  lemma {:induction false} ReachedHasDepth(u: Universe, root: nat, t: nat, q: seq<nat>)
    requires Closed(u) && root < |u.structs| && Reaches(u, root, t, q)
    ensures exists d :: 0 <= d <= |q| && AtDepth(u, root, t, d)
    decreases |q|
  {
    if exists q' :: Reaches(u, root, t, q') && |q'| < |q| {
      var q' :| Reaches(u, root, t, q') && |q'| < |q|;
      ReachedHasDepth(u, root, t, q');
    } else {
      assert AtDepth(u, root, t, |q|);
    }
  }

  lemma StepReaches(u: Universe, root: nat, s: nat, q: seq<nat>, i: nat)
    requires Closed(u) && root < |u.structs| && Reaches(u, root, s, q) && EmbedAt(u, s, i).Some?
    ensures Reaches(u, root, EmbedAt(u, s, i).value, q + [i])
  {
  }

  /** A child lies at most one level below its parent. */
  lemma ChildDepth(u: Universe, root: nat, s: nat, d: nat, i: nat)
    requires Closed(u) && root < |u.structs| && s < |u.structs| && AtDepth(u, root, s, d) && EmbedAt(u, s, i).Some?
    ensures exists e :: 0 <= e <= d + 1 && AtDepth(u, root, EmbedAt(u, s, i).value, e)
  {
    var p :| |p| == d && Reaches(u, root, s, p);
    StepReaches(u, root, s, p, i);
    ReachedHasDepth(u, root, EmbedAt(u, s, i).value, p + [i]);
  }

  lemma {:induction false} PathLeqStep(p: seq<nat>, q: seq<nat>, i: nat, j: nat)
    requires |p| == |q|
    ensures PathLeq(p + [i], q + [j]) <==> (if p == q then i <= j else PathLeq(p, q))
  {
    if p == [] {
      assert p + [i] == [i] && q + [j] == [j];
      assert [i][1..] == [] && [j][1..] == [];
    } else {
      assert (p + [i])[1..] == p[1..] + [i] && (q + [j])[1..] == q[1..] + [j];
      assert p == [p[0]] + p[1..] && q == [q[0]] + q[1..];
      PathLeqStep(p[1..], q[1..], i, j);
    }
  }
}
