/** Concrete Go types the contract check fails on: one it never answers for, and one it does not tell from another. */
module GoTypes {
  import opened Options
  import opened TypeGraph
  import opened TypeChecks
  import opened FieldResolution
  import opened FieldRules
  import opened Chains
  import opened Contracts
  import S = Signature

  // ----- a struct with a single, ordinary field

  function TaggedAs(name: string, tag: string, t: Type): StructField {
    StructField(name, true, false, t, false, tag, false)
  }

  function Plainly(name: string, t: Type): StructField {
    TaggedAs(name, "", t)
  }

  /** The first struct has this one field, for JSON to see, and the universe no other struct. */
  ghost predicate Lone(u: Universe, f: StructField) {
    Complete(u) && u.structs == [[f]] && f.exported && !f.anonymous && !f.dash
  }

  function Sole(f: StructField): Candidate {
    Candidate(JsonName(f), f.typ, f.omitEmpty, [0], 0, f.tag != "")
  }

  lemma {:induction false} NothingEmbedded(u: Universe, f: StructField, p: seq<nat>)
    requires Lone(u, f)
    ensures TypeAt(u, 0, p) == if p == [] then Some(0) else None
  {
    if p != [] {
      NothingEmbedded(u, f, p[..|p| - 1]);
    }
  }

  lemma OnlySole(u: Universe, f: StructField, c: Candidate)
    requires Lone(u, f) && Contender(u, 0, c)
    ensures c == Sole(f)
  {
    var s, p, k := ContendersAreFields(u, 0, c);
    NothingEmbedded(u, f, p);
    assert p == [] && k == 0 && c.index == [0];
  }

  lemma RootIsFirst(u: Universe, f: StructField)
    requires Lone(u, f)
    ensures FirstShortest(u, 0, 0, [])
  {
    forall q
      ensures TypeAt(u, 0, q) == if q == [] then Some(0) else None
    {
      NothingEmbedded(u, f, q);
    }
  }

  lemma SoleIsContender(u: Universe, f: StructField)
    requires Lone(u, f)
    ensures Contender(u, 0, Sole(f))
  {
    RootIsFirst(u, f);
    assert [] + [0] == [0];
    assert IsField(u, 0, Sole(f), 0, [], 0);
    FieldsAreContenders(u, 0, Sole(f), 0, [], 0);
  }

  lemma SoleContender(u: Universe, f: StructField, c: Candidate)
    requires Lone(u, f)
    ensures Contender(u, 0, c) <==> c == Sole(f)
  {
    SoleIsContender(u, f);
    if Contender(u, 0, c) {
      OnlySole(u, f, c);
    }
  }

  lemma SoleDominates(u: Universe, f: StructField, c: Candidate)
    requires Lone(u, f)
    ensures Dominates(u, 0, c) <==> c == Sole(f)
  {
    forall x {
      SoleContender(u, f, x);
    }
  }

  lemma SoleFields(u: Universe, f: StructField)
    requires Lone(u, f)
    ensures IsFieldList(u, 0, [Sole(f)])
  {
    forall c {
      SoleDominates(u, f, c);
    }
  }

  lemma SoleDecides(u: Universe, f: StructField)
    requires Lone(u, f) && Verdict(u, f.typ, |u.types| + 1) == Some(true)
    ensures !HitsCycle(u, 0) && !HitsUnsupported(u, 0)
  {
    CleanPasses(u, f.typ, |u.types| + 1);
    forall c {
      SoleContender(u, f, c);
    }
  }

  // ----- a linked list

  /** type N struct{ Next *N } */
  const LinkedList: Universe := Universe([[Plainly("Next", Other(0))]], [Pointer(Struct(0))])

  lemma ListIsLone()
    ensures Lone(LinkedList, Plainly("Next", Other(0))) && Verdict(LinkedList, Other(0), 2) == Some(true)
  {
    assert NodeOf(LinkedList, Other(0)) == Pointer(Struct(0));
    assert Verdict(LinkedList, Struct(0), 1) == Some(true);
  }

  lemma ListIsEndless()
    ensures Complete(LinkedList) && Endless(LinkedList, Struct(0))
  {
    ListIsLone();
    SoleDecides(LinkedList, Plainly("Next", Other(0)));
    SoleDominates(LinkedList, Plainly("Next", Other(0)), Sole(Plainly("Next", Other(0))));
    assert Prints(LinkedList, Struct(0), Other(0)) && Prints(LinkedList, Other(0), Struct(0));
    var path := [Struct(0), Other(0), Struct(0)];
    assert CallsNext(CallsOf(LinkedList), path, 0) && CallsNext(CallsOf(LinkedList), path, 1);
    assert Chain(CallsOf(LinkedList), path) && path[0] == path[2];
  }

  /** Its fields are found, but printing them prints it again: the printer returns for no stack. */
  lemma LinkedListNeverPrints(stack: nat, r: Option<string>)
    requires Complete(LinkedList) && InRange(LinkedList, Struct(0)) && Answers(LinkedList, Struct(0), stack, r)
    ensures r.None? && !HitsCycle(LinkedList, 0)
  {
    ListIsLone();
    SoleDecides(LinkedList, Plainly("Next", Other(0)));
    ListIsEndless();
    PrintReturnsExactlyWhen(LinkedList, Struct(0), stack, r);
  }

  // ----- a retyped map

  /** struct{ A map[string]kind } */
  function MapHolder(kind: string): Universe {
    Universe([[Plainly("A", Other(0))]], [Map(Other(1), Other(2)), Scalar("string"), Scalar(kind)])
  }

  function MapShape(kind: string): S.Shape {
    S.Single("A", S.Map(S.Leaf("string"), S.Leaf(kind)))
  }

  lemma HolderIsLone(kind: string)
    requires S.IsKind(kind)
    ensures Lone(MapHolder(kind), Plainly("A", Other(0))) && Verdict(MapHolder(kind), Other(0), 4) == Some(true)
  {
    var u := MapHolder(kind);
    assert Verdict(u, Other(1), 3) == Some(true) && Verdict(u, Other(2), 3) == Some(true);
  }

  lemma HolderUnfolds(kind: string)
    requires S.IsKind(kind)
    ensures Complete(MapHolder(kind)) && Unfolds(MapHolder(kind), Struct(0), MapShape(kind), true)
  {
    var u := MapHolder(kind);
    HolderIsLone(kind);
    MapUnfolds(kind);
    SoleDecides(u, Plainly("A", Other(0)));
    SoleFields(u, Plainly("A", Other(0)));
    SoleUnfolds(u, Plainly("A", Other(0)), S.Map(S.Leaf("string"), S.Leaf(kind)), true);
  }

  lemma MapUnfolds(kind: string)
    requires S.IsKind(kind) && Complete(MapHolder(kind))
    ensures Unfolds(MapHolder(kind), Other(0), S.Map(S.Leaf("string"), S.Leaf(kind)), true)
  {
    var u := MapHolder(kind);
    assert NodeOf(u, Other(0)) == Map(Other(1), Other(2));
    assert Unfolds(u, Other(1), S.Leaf("string"), true) && Unfolds(u, Other(2), S.Leaf(kind), true);
  }

  lemma SoleUnfolds(u: Universe, f: StructField, shape: S.Shape, whole: bool)
    requires Lone(u, f) && !HitsCycle(u, 0) && !HitsUnsupported(u, 0) && IsFieldList(u, 0, [Sole(f)])
    requires InRange(u, f.typ) && Unfolds(u, f.typ, shape, whole)
    ensures Unfolds(u, Struct(0), S.Single(JsonName(f), shape), whole)
  {
    assert Matches(u, [Sole(f)], S.Single(JsonName(f), shape), whole);
  }

  lemma AnswerIsPrint(u: Universe, t: Type, stack: nat, r: Option<string>, shape: S.Shape)
    requires Complete(u) && InRange(u, t) && Answers(u, t, stack, r) && Unfolds(u, t, shape, false)
    ensures r.Some? ==> r.value == S.Sig(shape)
  {
    if r.Some? {
      var printed :| Unfolds(u, t, printed, false) && r.value == S.Sig(printed);
      OneShape(u, t, printed, shape, false);
    }
  }

  lemma MapErases(kind: string)
    ensures S.Erase(MapShape(kind)) == S.Single("A", S.ANY_MAP)
  {
  }

  lemma HolderUnfoldsErased(kind: string)
    requires S.IsKind(kind)
    ensures Complete(MapHolder(kind)) && Unfolds(MapHolder(kind), Struct(0), S.Single("A", S.ANY_MAP), false)
  {
    HolderUnfolds(kind);
    PrintedIsErased(MapHolder(kind), Struct(0), MapShape(kind));
    MapErases(kind);
  }

  lemma HolderPrints(kind: string, stack: nat, r: Option<string>)
    requires S.IsKind(kind) && Complete(MapHolder(kind)) && Answers(MapHolder(kind), Struct(0), stack, r)
    ensures r.Some? ==> r.value == S.Sig(S.Single("A", S.ANY_MAP))
  {
    HolderUnfoldsErased(kind);
    AnswerIsPrint(MapHolder(kind), Struct(0), stack, r, S.Single("A", S.ANY_MAP));
  }

  lemma HolderShapesDiffer(kind: string, other: string)
    requires kind != other
    ensures !S.Same(MapShape(kind), MapShape(other))
  {
    S.SinglesDiffer("A", S.Map(S.Leaf("string"), S.Leaf(kind)), S.Map(S.Leaf("string"), S.Leaf(other)));
  }

  /** What a map holds can be retyped without the check noticing. */
  lemma RetypedMapMatches(kind: string, other: string, stack: nat, p: Option<string>, q: Option<string>)
    requires S.IsKind(kind) && S.IsKind(other) && kind != other
    requires Complete(MapHolder(kind)) && Answers(MapHolder(kind), Struct(0), stack, p)
    requires Complete(MapHolder(other)) && Answers(MapHolder(other), Struct(0), stack, q)
    ensures p.Some? && q.Some? ==> p == q
    ensures Unfolds(MapHolder(kind), Struct(0), MapShape(kind), true)
    ensures Unfolds(MapHolder(other), Struct(0), MapShape(other), true)
    ensures !S.Same(MapShape(kind), MapShape(other))
  {
    HolderUnfolds(kind);
    HolderUnfolds(other);
    HolderShapesDiffer(kind, other);
    HolderPrints(kind, stack, p);
    HolderPrints(other, stack, q);
  }

  // ----- a renamed tag

  /** struct{ name kind `json:"tag"` } */
  function TagHolder(name: string, tag: string, kind: string): Universe {
    Universe([[TaggedAs(name, tag, Other(0))]], [Scalar(kind)])
  }

  function Braced(name: string, kind: string): string {
    "{" + name + ":" + kind + "}"
  }

  /** What is printed of a struct with one field: the tag's name if it has one, and the kind. */
  lemma TagIsPrinted(name: string, tag: string, kind: string, stack: nat, r: Option<string>)
    requires S.IsKind(kind) && Complete(TagHolder(name, tag, kind))
    requires Answers(TagHolder(name, tag, kind), Struct(0), stack, r)
    ensures r.Some? ==> r.value == Braced(if tag == "" then name else tag, kind)
  {
    var printed := if tag == "" then name else tag;
    TagUnfolds(name, tag, kind);
    AnswerIsPrint(TagHolder(name, tag, kind), Struct(0), stack, r, S.Single(printed, S.Leaf(kind)));
    S.SigOfSingle(printed, S.Leaf(kind));
    assert "{" + (printed + ":" + kind) + "}" == Braced(printed, kind);
  }

  lemma TagUnfolds(name: string, tag: string, kind: string)
    requires S.IsKind(kind) && Complete(TagHolder(name, tag, kind))
    ensures Unfolds(TagHolder(name, tag, kind), Struct(0), S.Single(if tag == "" then name else tag, S.Leaf(kind)), false)
  {
    var u, f := TagHolder(name, tag, kind), TaggedAs(name, tag, Other(0));
    assert NodeOf(u, Other(0)) == Scalar(kind);
    assert Verdict(u, Other(0), 2) == Some(true);
    SoleDecides(u, f);
    SoleFields(u, f);
    SoleUnfolds(u, f, S.Leaf(kind), false);
  }

  /** Two structs that differ only in the tag of their field do not match. */
  lemma RenamedTagIsSeen(name: string, tag: string, other: string, kind: string, stack: nat, p: Option<string>,
                         q: Option<string>)
    requires S.IsKind(kind) && tag != "" && other != "" && tag != other
    requires Complete(TagHolder(name, tag, kind)) && Answers(TagHolder(name, tag, kind), Struct(0), stack, p)
    requires Complete(TagHolder(name, other, kind)) && Answers(TagHolder(name, other, kind), Struct(0), stack, q)
    ensures p.Some? && q.Some? ==> p != q
  {
    TagIsPrinted(name, tag, kind, stack, p);
    TagIsPrinted(name, other, kind, stack, q);
    NamesShow(tag, other, kind);
  }

  lemma NamesShow(a: string, b: string, kind: string)
    requires a != b
    ensures Braced(a, kind) != Braced(b, kind)
  {
    assert Braced(a, kind)[1..|a| + 1] == a;
    assert Braced(b, kind)[1..|b| + 1] == b;
  }

  // ----- how each kind of type is spelled

  /** What is printed of a type that is no struct: a mark for what it is, and the print of what it is made of. */
  lemma SpellingOf(u: Universe, t: nat, shape: S.Shape)
    requires Complete(u) && t < |u.types| && Unfolds(u, Other(t), shape, false)
    ensures var node := u.types[t];
            && (node.Map? ==> S.Sig(shape) == "map")
            && (node.Scalar? || node.Unsupported? ==> S.Sig(shape) == node.kind)
            && (node.Pointer? || node.Slice? || node.Array? ==>
                  && InRange(u, node.elem)
                  && exists part :: Unfolds(u, node.elem, part, false)
                                    && S.Sig(shape) == (if node.Pointer? then "*" else "[]") + S.Sig(part))
  {
    var node := u.types[t];
    if node.Pointer? || node.Slice? || node.Array? {
      assert Unfolds(u, node.elem, shape.elem, false);
    }
  }

  /**
   What JSON writes of it: a list of what an array or slice holds, but text for a slice of
   bytes, and all of a map.
   */
  lemma WrittenAs(u: Universe, t: nat, shape: S.Shape)
    requires Complete(u) && t < |u.types| && Unfolds(u, Other(t), shape, true)
    ensures match u.types[t]
            case Pointer(e) => shape.Pointer?
            case Slice(e) =>
              if e.Other? && e.id < |u.types| && u.types[e.id] == Scalar("uint8") then shape.Bytes?
              else shape.List?
            case Array(e) => shape.List?
            case Map(_, _) => shape.Map?
            case Scalar(kind) => shape == S.Leaf(kind)
            case Unsupported(kind) => shape == S.Leaf(kind)
  {
  }
}
