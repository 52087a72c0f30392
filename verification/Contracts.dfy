/**
 The contract check itself: two Go types, perhaps from different modules, are printed and the
 prints compared. The printer follows fields as field resolution yields them; this module
 proves what equal prints say of the two types.
 */
module Contracts {
  import opened Options
  import opened Sorting
  import opened TypeGraph
  import opened FieldSearch
  import opened TypeChecks
  import opened FieldResolution
  import opened Chains
  import S = Signature

  predicate InRange(u: Universe, t: Type) {
    t.Struct? ==> t.id < |u.structs|
  }

  predicate NodeOk(u: Universe, n: Node) {
    match n
    case Pointer(e) => InRange(u, e)
    case Slice(e) => InRange(u, e)
    case Array(e) => InRange(u, e)
    case Map(k, e) => InRange(u, k) && InRange(u, e)
    case Scalar(kind) => S.IsKind(kind)
    case Unsupported(kind) => S.IsKind(kind)
  }

  /** Every struct a type mentions is there, and kinds are named by words. */
  ghost predicate Complete(u: Universe) {
    && Closed(u)
    && (forall i :: 0 <= i < |u.types| ==> NodeOk(u, u.types[i]))
    && (forall t, i :: 0 <= t < |u.structs| && 0 <= i < |u.structs[t]| ==> InRange(u, u.structs[t][i].typ))
  }

  /** JSON writes a slice of bytes as text; an array of them is a list. */
  predicate IsText(u: Universe, t: Type) {
    NodeOf(u, t).Slice? && NodeOf(u, NodeOf(u, t).elem) == Scalar("uint8")
  }

  /**
   shape is the finite tree of t: of what JSON sees of it if whole, else of what is printed
   of it, where a map holds anything and bytes are a list. A type JSON cannot carry shows
   its kind alone, and so does a struct whose fields are refused.
   */
  ghost predicate Unfolds(u: Universe, t: Type, shape: S.Shape, whole: bool)
    requires Complete(u) && InRange(u, t)
    decreases shape
  {
    match t
    case Struct(id) =>
      if HitsUnsupported(u, id) then shape == S.Leaf("struct")
      else
        && !HitsCycle(u, id) && shape.Record?
        && exists fields :: IsFieldList(u, id, fields) && Matches(u, fields, shape, whole)
    case Other(_) =>
      if whole && IsText(u, t) then shape == S.Bytes
      else
        (match NodeOf(u, t)
         case Pointer(e) => shape.Pointer? && Unfolds(u, e, shape.elem, whole)
         case Slice(e) => shape.List? && Unfolds(u, e, shape.elem, whole)
         case Array(e) => shape.List? && Unfolds(u, e, shape.elem, whole)
         case Map(k, e) =>
           if whole then shape.Map? && Unfolds(u, k, shape.key, whole) && Unfolds(u, e, shape.elem, whole)
           else shape == S.ANY_MAP
         case Scalar(kind) => shape == S.Leaf(kind)
         case Unsupported(kind) => shape == S.Leaf(kind))
  }

  ghost predicate Matches(u: Universe, fields: seq<Candidate>, shape: S.Shape, whole: bool)
    requires Complete(u) && shape.Record?
    decreases shape, 0
  {
    && |fields| == |shape.fields|
    && forall i :: 0 <= i < |fields| ==>
         && InRange(u, fields[i].typ) && fields[i].name == shape.fields[i].name
         && Unfolds(u, fields[i].typ, shape.fields[i].shape, whole)
  }

  function Max(a: nat, b: nat): nat {
    if a < b then b else a
  }

  /** How deep the calls that print this shape nest. */
  function Height(shape: S.Shape): nat {
    match shape
    case Record(_) => 1 + Tallest(shape, |shape.fields|)
    case List(e) => 1 + Height(e)
    case Pointer(e) => 1 + Height(e)
    case _ => 1
  }

  function Tallest(shape: S.Shape, n: nat): nat
    requires shape.Record? && n <= |shape.fields|
    decreases shape, 0, n
  {
    if n == 0 then 0 else Max(Tallest(shape, n - 1), Height(shape.fields[n - 1].shape))
  }

  lemma {:induction false} TallestIsMost(shape: S.Shape, n: nat, i: nat)
    requires shape.Record? && i < n <= |shape.fields|
    ensures Height(shape.fields[i].shape) <= Tallest(shape, n)
  {
    if i < n - 1 {
      TallestIsMost(shape, n - 1, i);
    }
  }

  lemma FieldTypesInRange(u: Universe, root: nat, fields: seq<Candidate>, i: nat)
    requires Complete(u) && root < |u.structs| && IsFieldList(u, root, fields) && i < |fields|
    ensures InRange(u, fields[i].typ)
  {
    assert fields[i] in fields;
  }

  lemma OneTrouble(u: Universe, root: nat)
    requires Closed(u) && root < |u.structs|
    ensures !(HitsCycle(u, root) && HitsUnsupported(u, root))
  {
    var stack := |u.types| + 1;
    StopsOnCycle(u, root, stack);
    if StopsWith(u, root, stack, None) && StopsWith(u, root, stack, Some(false)) {
      StopsOnce(u, root, stack, None, Some(false));
    }
  }

  /** A type unfolds into one shape at most. */
  lemma {:induction false} OneShape(u: Universe, t: Type, a: S.Shape, b: S.Shape, whole: bool)
    requires Complete(u) && InRange(u, t) && Unfolds(u, t, a, whole) && Unfolds(u, t, b, whole)
    ensures a == b
    decreases a
  {
    match t
    case Struct(id) =>
      if !HitsUnsupported(u, id) {
        var fields: seq<Candidate> :| IsFieldList(u, id, fields) && Matches(u, fields, a, whole);
        var others: seq<Candidate> :| IsFieldList(u, id, others) && Matches(u, others, b, whole);
        FieldListIsUnique(u, id, fields, others);
        forall i | 0 <= i < |fields|
          ensures a.fields[i] == b.fields[i]
        {
          OneShape(u, fields[i].typ, a.fields[i].shape, b.fields[i].shape, whole);
        }
        assert a.fields == b.fields;
      }
    case Other(_) =>
      if !(whole && IsText(u, t)) {
        match NodeOf(u, t)
        case Pointer(e) => OneShape(u, e, a.elem, b.elem, whole);
        case Slice(e) => OneShape(u, e, a.elem, b.elem, whole);
        case Array(e) => OneShape(u, e, a.elem, b.elem, whole);
        case Map(k, e) =>
          if whole {
            OneShape(u, k, a.key, b.key, whole);
            OneShape(u, e, a.elem, b.elem, whole);
          }
        case _ =>
      }
  }

  /** What is printed of a type is its shape with the forgotten parts erased. */
  lemma {:induction false} PrintedIsErased(u: Universe, t: Type, shape: S.Shape)
    requires Complete(u) && InRange(u, t) && Unfolds(u, t, shape, true)
    ensures Unfolds(u, t, S.Erase(shape), false)
    decreases shape
  {
    match t
    case Struct(id) =>
      if !HitsUnsupported(u, id) {
        var fields: seq<Candidate> :| IsFieldList(u, id, fields) && Matches(u, fields, shape, true);
        forall i | 0 <= i < |fields|
          ensures Unfolds(u, fields[i].typ, S.Erase(shape.fields[i].shape), false)
        {
          PrintedIsErased(u, fields[i].typ, shape.fields[i].shape);
        }
        assert Matches(u, fields, S.Erase(shape), false);
      }
    case Other(_) =>
      if !IsText(u, t) {
        match NodeOf(u, t)
        case Pointer(e) => PrintedIsErased(u, e, shape.elem);
        case Slice(e) => PrintedIsErased(u, e, shape.elem);
        case Array(e) => PrintedIsErased(u, e, shape.elem);
        case _ =>
      }
  }

  /** If nothing was forgotten, what is printed is the shape. */
  lemma {:induction false} BareIsWhole(u: Universe, t: Type, shape: S.Shape)
    requires Complete(u) && InRange(u, t) && Unfolds(u, t, shape, false) && S.Bare(shape)
    ensures Unfolds(u, t, shape, true)
    decreases shape
  {
    match t
    case Struct(id) =>
      if !HitsUnsupported(u, id) {
        var fields: seq<Candidate> :| IsFieldList(u, id, fields) && Matches(u, fields, shape, false);
        forall i | 0 <= i < |fields|
          ensures Unfolds(u, fields[i].typ, shape.fields[i].shape, true)
        {
          BareIsWhole(u, fields[i].typ, shape.fields[i].shape);
        }
        assert Matches(u, fields, shape, true);
      }
    case Other(_) =>
      match NodeOf(u, t)
      case Pointer(e) => BareIsWhole(u, e, shape.elem);
      case Slice(e) => BareIsWhole(u, e, shape.elem);
      case Array(e) => BareIsWhole(u, e, shape.elem);
      case _ =>
  }

  // ----- what printing calls

  /** Printing a prints b. */
  ghost predicate Prints(u: Universe, a: Type, b: Type)
    requires Complete(u)
  {
    match a
    case Struct(id) =>
      && id < |u.structs| && !HitsUnsupported(u, id) && !HitsCycle(u, id)
      && exists c :: Dominates(u, id, c) && c.typ == b
    case Other(_) =>
      (match NodeOf(u, a)
       case Pointer(e) => b == e
       case Slice(e) => b == e
       case Array(e) => b == e
       case _ => false)
  }

  ghost function CallsOf(u: Universe): (Type, Type) -> bool
    requires Complete(u)
  {
    (a: Type, b: Type) => Complete(u) && Prints(u, a, b)
  }

  /** Not even the fields of this struct are found. */
  ghost function StuckAt(u: Universe): Type -> bool
    requires Complete(u)
  {
    (t: Type) => Complete(u) && t.Struct? && t.id < |u.structs| && HitsCycle(u, t.id)
  }

  /** Each type's print calls the next one's. */
  ghost predicate Nested(u: Universe, path: seq<Type>)
    requires Complete(u)
  {
    Chain(CallsOf(u), path)
  }

  lemma NextCallPrints(u: Universe, path: seq<Type>, i: nat)
    requires Complete(u) && Nested(u, path) && i + 1 < |path|
    ensures Prints(u, path[i], path[i + 1])
  {
    assert CallsNext(CallsOf(u), path, i);
  }

  /** The calls that print t meet a type twice, or a struct whose fields are never found. */
  ghost predicate Endless(u: Universe, t: Type)
    requires Complete(u)
  {
    Loops(CallsOf(u), StuckAt(u), t)
  }

  /** Printing t nests calls as deep as there is room, but for the room one field search may take. */
  ghost predicate Overflows(u: Universe, t: Type, room: int)
    requires Complete(u)
  {
    Fills(CallsOf(u), StuckAt(u), t, room - |u.types| + 1)
  }

  lemma CallIsInRange(u: Universe, a: Type, b: Type)
    requires Complete(u) && InRange(u, a) && Prints(u, a, b)
    ensures InRange(u, b)
  {
    match a
    case Struct(id) =>
      var c :| Dominates(u, id, c) && c.typ == b;
      assert Contender(u, id, c);
    case Other(_) =>
  }

  /** What is called prints a part of the shape. */
  lemma PartOfShape(u: Universe, a: Type, b: Type, shape: S.Shape) returns (part: S.Shape)
    requires Complete(u) && InRange(u, a) && InRange(u, b) && Prints(u, a, b) && Unfolds(u, a, shape, false)
    ensures Unfolds(u, b, part, false) && Height(part) < Height(shape)
  {
    match a
    case Struct(id) =>
      var fields: seq<Candidate> :| IsFieldList(u, id, fields) && Matches(u, fields, shape, false);
      var c :| Dominates(u, id, c) && c.typ == b;
      var i :| 0 <= i < |fields| && fields[i] == c;
      TallestIsMost(shape, |shape.fields|, i);
      part := shape.fields[i].shape;
    case Other(_) =>
      part := shape.elem;
  }

  lemma {:induction false} DeepPart(u: Universe, path: seq<Type>, i: nat, shape: S.Shape) returns (part: S.Shape)
    requires Complete(u) && Nested(u, path) && i < |path| && InRange(u, path[0]) && Unfolds(u, path[0], shape, false)
    ensures InRange(u, path[i]) && Unfolds(u, path[i], part, false) && Height(part) + i <= Height(shape)
    decreases i
  {
    if i == 0 {
      part := shape;
    } else {
      var before := DeepPart(u, path, i - 1, shape);
      NextCallPrints(u, path, i - 1);
      CallIsInRange(u, path[i - 1], path[i]);
      part := PartOfShape(u, path[i - 1], path[i], before);
    }
  }

  lemma NextInRange(u: Universe, path: seq<Type>, i: nat)
    requires Complete(u) && Nested(u, path) && i + 1 < |path| && InRange(u, path[i])
    ensures InRange(u, path[i + 1])
  {
    NextCallPrints(u, path, i);
    CallIsInRange(u, path[i], path[i + 1]);
  }

  lemma {:induction false} DeepTypeInRange(u: Universe, path: seq<Type>, i: nat)
    requires Complete(u) && Nested(u, path) && i < |path| && InRange(u, path[0])
    ensures InRange(u, path[i])
  {
    if i > 0 {
      DeepTypeInRange(u, path, i - 1);
      NextInRange(u, path, i - 1);
    }
  }

  lemma StuckHasNoShape(u: Universe, t: Type, shape: S.Shape)
    requires Complete(u) && InRange(u, t) && StuckAt(u)(t)
    ensures !Unfolds(u, t, shape, false)
  {
    OneTrouble(u, t.id);
  }

  /** A type whose printing never ends has no finite shape. */
  lemma EndlessHasNoShape(u: Universe, t: Type, shape: S.Shape)
    requires Complete(u) && InRange(u, t) && Endless(u, t)
    ensures !Unfolds(u, t, shape, false)
  {
    var path := LoopedBy(CallsOf(u), StuckAt(u), t);
    if Repeats(path) {
      RepeatingHasNoShape(u, path, shape);
    } else {
      var last := |path| - 1;
      if InRange(u, path[last]) {
        StuckHasNone(u, path[last]);
      }
      StuckPathHasNoShape(u, path, last);
    }
  }

  ghost predicate HasShape(u: Universe, t: Type)
    requires Complete(u) && InRange(u, t)
  {
    exists shape :: Unfolds(u, t, shape, false)
  }

  lemma DeepHasShape(u: Universe, path: seq<Type>, i: nat)
    requires Complete(u) && Nested(u, path) && i < |path| && InRange(u, path[0]) && HasShape(u, path[0])
    ensures InRange(u, path[i]) && HasShape(u, path[i])
  {
    var shape :| Unfolds(u, path[0], shape, false);
    var part := DeepPart(u, path, i, shape);
  }

  lemma StuckHasNone(u: Universe, t: Type)
    requires Complete(u) && InRange(u, t) && StuckAt(u)(t)
    ensures !HasShape(u, t)
  {
    forall shape
      ensures !Unfolds(u, t, shape, false)
    {
      StuckHasNoShape(u, t, shape);
    }
  }

  lemma StuckPathHasNoShape(u: Universe, path: seq<Type>, last: nat)
    requires Complete(u) && Nested(u, path) && last < |path| && InRange(u, path[0])
    requires InRange(u, path[last]) ==> !HasShape(u, path[last])
    ensures !HasShape(u, path[0])
  {
    if HasShape(u, path[0]) {
      DeepHasShape(u, path, last);
    }
  }

  lemma RepeatingHasNoShape(u: Universe, path: seq<Type>, shape: S.Shape)
    requires Complete(u) && Nested(u, path) && InRange(u, path[0]) && Repeats(path)
    ensures !Unfolds(u, path[0], shape, false)
  {
    var i, j :| 0 <= i < j < |path| && path[i] == path[j];
    RepeatHasNoShape(u, path, i, j, shape);
  }

  lemma RepeatHasNoShape(u: Universe, path: seq<Type>, i: nat, j: nat, shape: S.Shape)
    requires Complete(u) && Nested(u, path) && InRange(u, path[0]) && i < j < |path| && path[i] == path[j]
    ensures !Unfolds(u, path[0], shape, false)
  {
    if Unfolds(u, path[0], shape, false) {
      var outer := DeepPart(u, path, i, shape);
      RestIsChain(CallsOf(u), path, i);
      assert Nested(u, path[i..]);
      var inner := DeepPart(u, path[i..], j - i, outer);
      OneShape(u, path[i], outer, inner, false);
    }
  }

  // ----- deep nesting repeats

  /** Structs and other types numbered together. */
  function Number(u: Universe, t: Type): nat {
    if t.Struct? then t.id else |u.structs| + t.id
  }

  lemma CallerIsListed(u: Universe, a: Type, b: Type)
    requires Complete(u) && Prints(u, a, b)
    ensures Number(u, a) < |u.structs| + |u.types|
  {
  }

  lemma LongNestingRepeats(u: Universe, path: seq<Type>)
    requires Complete(u) && Nested(u, path) && |path| > |u.structs| + |u.types| + 1 && InRange(u, path[0])
    ensures Repeats(path)
  {
    var n := |path| - 1;
    forall i | 0 <= i < n
      ensures Number(u, path[i]) < |u.structs| + |u.types| && InRange(u, path[i])
    {
      NextCallPrints(u, path, i);
      CallerIsListed(u, path[i], path[i + 1]);
      DeepTypeInRange(u, path, i);
    }
    var numbers := seq(n, i requires 0 <= i < n => Number(u, path[i]));
    Pigeonhole(numbers, |u.structs| + |u.types|);
    var i, j :| 0 <= i < j < |numbers| && numbers[i] == numbers[j];
    assert path[i] == path[j];
  }

  lemma OverflowIsEndless(u: Universe, t: Type, room: nat)
    requires Complete(u) && InRange(u, t) && Overflows(u, t, room) && room > |u.structs| + 2 * |u.types|
    ensures Endless(u, t)
  {
    forall path | Nested(u, path) && path[0] == t && |path| >= room - |u.types| + 1
      ensures Repeats(path)
    {
      LongNestingRepeats(u, path);
    }
    FillingLoops(CallsOf(u), StuckAt(u), t, room - |u.types| + 1);
  }

  /** A type with a shape overflows only where its shape is too high for the room. */
  lemma OverflowIsTooDeep(u: Universe, t: Type, room: nat, shape: S.Shape)
    requires Complete(u) && InRange(u, t) && Overflows(u, t, room) && Unfolds(u, t, shape, false)
    ensures Height(shape) + |u.types| > room
  {
    var path := FilledBy(CallsOf(u), StuckAt(u), t, room - |u.types| + 1);
    ChainIsLow(u, path, shape);
  }

  lemma ChainIsLow(u: Universe, path: seq<Type>, shape: S.Shape)
    requires Complete(u) && Nested(u, path) && InRange(u, path[0]) && Unfolds(u, path[0], shape, false)
    ensures |path| <= Height(shape) && !StuckAt(u)(path[|path| - 1])
  {
    var part := DeepPart(u, path, |path| - 1, shape);
    HeightIsPositive(part);
    if StuckAt(u)(path[|path| - 1]) {
      StuckHasNoShape(u, path[|path| - 1], part);
    }
  }

  lemma HeightIsPositive(shape: S.Shape)
    ensures Height(shape) >= 1
  {
  }

  lemma CallOverflows(u: Universe, a: Type, b: Type, room: nat)
    requires Complete(u) && Prints(u, a, b) && Overflows(u, b, room)
    ensures Overflows(u, a, room + 1)
  {
    CallerFills(CallsOf(u), StuckAt(u), a, b, room - |u.types| + 1);
  }

  lemma NoRoomOverflows(u: Universe, t: Type, room: nat)
    requires Complete(u) && (room <= |u.types| || StuckAt(u)(t))
    ensures Overflows(u, t, room)
  {
    OneFills(CallsOf(u), StuckAt(u), t, room - |u.types| + 1);
  }

  // ----- the printer

  /** The printed fields so far, and their shapes. */
  ghost predicate PrintedTo(u: Universe, fields: seq<Candidate>, i: nat, parts: seq<string>,
                            properties: seq<S.Property>)
    requires Complete(u) && i <= |fields|
  {
    && |properties| == |parts| == i && parts == S.Parts(properties)
    && forall j :: 0 <= j < i ==>
         && InRange(u, fields[j].typ) && properties[j].name == fields[j].name
         && Unfolds(u, fields[j].typ, properties[j].shape, false)
  }

  lemma PartsGrow(properties: seq<S.Property>, p: S.Property)
    ensures S.Parts(properties + [p]) == S.Parts(properties) + [S.Part(p)]
  {
  }

  method PrintFields(u: Universe, root: nat, seen: seq<Field>, ghost fields: seq<Candidate>, stack: nat)
    returns (r: Option<string>, ghost shape: S.Shape)
    requires Complete(u) && root < |u.structs| && Describes(u, root, fields, seen)
    requires !HitsCycle(u, root) && !HitsUnsupported(u, root)
    ensures r.Some? ==> Unfolds(u, Struct(root), shape, false) && r.value == S.Sig(shape)
    ensures r.None? ==> Overflows(u, Struct(root), stack + 1)
    decreases stack, 2
  {
    var parts: seq<string> := [];
    ghost var properties: seq<S.Property> := [];
    shape := S.Leaf("");
    for i := 0 to |seen|
      invariant PrintedTo(u, fields, i, parts, properties)
    {
      FieldTypesInRange(u, root, fields, i);
      var printed;
      ghost var own;
      printed, own := Print(u, seen[i].typ, stack);
      if printed.None? {
        assert fields[i] in fields;
        CallOverflows(u, Struct(root), fields[i].typ, stack);
        return None, shape;
      }
      PartsGrow(properties, S.Property(seen[i].name, own));
      parts := parts + [seen[i].name + ":" + printed.value];
      properties := properties + [S.Property(seen[i].name, own)];
    }
    shape := S.Record(properties);
    S.SigOfRecord(shape);
    assert Matches(u, fields, shape, false);
    r := Some("{" + S.Join(Sort(parts, StringLeq)) + "}");
  }

  /**
   The printer, with room for this many nested calls. What it prints is the signature of
   what is to be printed of the type; it prints nothing only where its calls take all the room.
   */
  method Print(u: Universe, t: Type, stack: nat) returns (r: Option<string>, ghost shape: S.Shape)
    requires Complete(u) && InRange(u, t)
    ensures r.Some? ==> Unfolds(u, t, shape, false) && r.value == S.Sig(shape)
    ensures r.None? ==> Overflows(u, t, stack)
    decreases stack, 1
  {
    shape := S.Leaf("");
    if stack == 0 {
      NoRoomOverflows(u, t, stack);
      return None, shape;
    }
    if t.Struct? {
      var a := Fields(u, Some(t), stack);
      OneTrouble(u, t.id);
      if a.Fatal? {
        NoRoomOverflows(u, t, stack);
        return None, shape;
      }
      if a.result.Err? {
        shape := S.Leaf("struct");
        return Some("struct"), shape;
      }
      ghost var fields :| Describes(u, t.id, fields, a.result.value);
      r, shape := PrintFields(u, t.id, a.result.value, fields, stack - 1);
      return;
    }
    r, shape := PrintOther(u, t, stack - 1);
  }

  method PrintOther(u: Universe, t: Type, stack: nat) returns (r: Option<string>, ghost shape: S.Shape)
    requires Complete(u) && t.Other?
    ensures r.Some? ==> Unfolds(u, t, shape, false) && r.value == S.Sig(shape)
    ensures r.None? ==> Overflows(u, t, stack + 1)
    decreases stack, 3
  {
    match NodeOf(u, t)
    case Pointer(e) =>
      r, shape := PrintElement(u, t, e, "*", stack);
      shape := S.Pointer(shape);
    case Slice(e) =>
      r, shape := PrintElement(u, t, e, "[]", stack);
      shape := S.List(shape);
    case Array(e) =>
      r, shape := PrintElement(u, t, e, "[]", stack);
      shape := S.List(shape);
    case Map(_, _) =>
      r, shape := Some("map"), S.ANY_MAP;
    case Scalar(kind) =>
      r, shape := Some(kind), S.Leaf(kind);
    case Unsupported(kind) =>
      r, shape := Some(kind), S.Leaf(kind);
  }

  method PrintElement(u: Universe, t: Type, e: Type, prefix: string, stack: nat)
    returns (r: Option<string>, ghost shape: S.Shape)
    requires Complete(u) && t.Other? && InRange(u, e) && Prints(u, t, e)
    ensures r.Some? ==> Unfolds(u, e, shape, false) && r.value == prefix + S.Sig(shape)
    ensures r.None? ==> Overflows(u, t, stack + 1)
    decreases stack, 2
  {
    r, shape := Print(u, e, stack);
    if r.None? {
      CallOverflows(u, t, e, stack);
    } else {
      r := Some(prefix + r.value);
    }
  }

  /** What Print promises of its answer. */
  ghost predicate Answers(u: Universe, t: Type, stack: nat, r: Option<string>)
    requires Complete(u) && InRange(u, t)
  {
    && (r.Some? ==> exists shape :: Unfolds(u, t, shape, false) && r.value == S.Sig(shape))
    && (r.None? ==> Overflows(u, t, stack))
  }

  /**
   The printer returns for no stack if its calls lead back to a type, through exposed fields,
   elements and pointers, or to a struct whose fields are never found. Given two calls for
   each type and one for each struct it returns in every other case.
   */
  lemma PrintReturnsExactlyWhen(u: Universe, t: Type, stack: nat, r: Option<string>)
    requires Complete(u) && InRange(u, t) && Answers(u, t, stack, r)
    ensures Endless(u, t) ==> r.None?
    ensures stack > |u.structs| + 2 * |u.types| ==> (r.None? <==> Endless(u, t))
  {
    if Endless(u, t) && r.Some? {
      var shape :| Unfolds(u, t, shape, false) && r.value == S.Sig(shape);
      EndlessHasNoShape(u, t, shape);
    }
    if r.None? && stack > |u.structs| + 2 * |u.types| {
      OverflowIsEndless(u, t, stack);
    }
  }

  // ----- what equal prints say

  ghost function PlainAt(u: Universe): Type -> bool
    requires Complete(u)
  {
    (t: Type) =>
      Complete(u) && (t.Struct? && t.id < |u.structs| ==> forall c :: Dominates(u, t.id, c) ==> S.Plain(c.name))
  }

  /** No struct that printing t reaches has a field whose name can imitate the printer. */
  ghost predicate PlainFrom(u: Universe, t: Type)
    requires Complete(u)
  {
    Throughout(CallsOf(u), PlainAt(u), t)
  }

  lemma PlainBelow(u: Universe, a: Type, b: Type)
    requires Complete(u) && Prints(u, a, b) && PlainFrom(u, a)
    ensures PlainFrom(u, b)
  {
    ThroughoutCallee(CallsOf(u), PlainAt(u), a, b);
  }

  lemma PlainHere(u: Universe, id: nat, c: Candidate)
    requires Complete(u) && id < |u.structs| && PlainFrom(u, Struct(id)) && Dominates(u, id, c)
    ensures S.Plain(c.name)
  {
    ThroughoutHere(CallsOf(u), PlainAt(u), Struct(id));
  }

  lemma FieldNamesDiffer(u: Universe, root: nat, fields: seq<Candidate>, shape: S.Shape, whole: bool)
    requires Complete(u) && root < |u.structs| && IsFieldList(u, root, fields)
    requires shape.Record? && Matches(u, fields, shape, whole)
    ensures S.DistinctNames(shape.fields)
  {
    forall i, j | 0 <= i < j < |fields|
      ensures fields[i].name != fields[j].name
    {
      assert fields[i] in fields && fields[j] in fields && PathLess(fields[i].index, fields[j].index);
      if fields[i].name == fields[j].name {
        OneFieldPerName(u, root, fields[i], fields[j]);
      }
    }
  }

  lemma RecordIsResolved(shape: S.Shape)
    requires shape.Record? && S.DistinctNames(shape.fields)
    requires forall i :: 0 <= i < |shape.fields| ==> S.Resolved(shape.fields[i].shape)
    ensures S.Resolved(shape)
  {
  }

  lemma {:induction false} ShapesAreResolved(u: Universe, t: Type, shape: S.Shape, whole: bool)
    requires Complete(u) && InRange(u, t) && Unfolds(u, t, shape, whole)
    ensures S.Resolved(shape)
    decreases shape
  {
    match t
    case Struct(id) =>
      if !HitsUnsupported(u, id) {
        var fields: seq<Candidate> :| IsFieldList(u, id, fields) && Matches(u, fields, shape, whole);
        FieldNamesDiffer(u, id, fields, shape, whole);
        forall i | 0 <= i < |shape.fields| {
          ShapesAreResolved(u, fields[i].typ, shape.fields[i].shape, whole);
        }
        RecordIsResolved(shape);
      }
    case Other(_) =>
      if !(whole && IsText(u, t)) {
        match NodeOf(u, t)
        case Pointer(e) => ShapesAreResolved(u, e, shape.elem, whole);
        case Slice(e) => ShapesAreResolved(u, e, shape.elem, whole);
        case Array(e) => ShapesAreResolved(u, e, shape.elem, whole);
        case Map(k, e) =>
          if whole {
            ShapesAreResolved(u, k, shape.key, whole);
            ShapesAreResolved(u, e, shape.elem, whole);
          }
        case _ =>
      }
  }

  lemma FieldIsPlain(u: Universe, id: nat, fields: seq<Candidate>, i: nat)
    requires Complete(u) && id < |u.structs| && !HitsUnsupported(u, id) && !HitsCycle(u, id)
    requires IsFieldList(u, id, fields) && i < |fields| && PlainFrom(u, Struct(id))
    ensures PlainFrom(u, fields[i].typ) && S.Plain(fields[i].name)
  {
    assert fields[i] in fields;
    PlainHere(u, id, fields[i]);
    PlainBelow(u, Struct(id), fields[i].typ);
  }

  lemma FieldsArePlain(u: Universe, id: nat, fields: seq<Candidate>, shape: S.Shape)
    requires Complete(u) && id < |u.structs| && !HitsUnsupported(u, id) && !HitsCycle(u, id)
    requires IsFieldList(u, id, fields) && PlainFrom(u, Struct(id))
    requires shape.Record? && Matches(u, fields, shape, false)
    requires forall i :: 0 <= i < |shape.fields| ==> S.Names(shape.fields[i].shape, S.Plain)
    ensures S.Names(shape, S.Plain)
  {
    forall i | 0 <= i < |shape.fields|
      ensures S.Plain(shape.fields[i].name)
    {
      FieldIsPlain(u, id, fields, i);
    }
  }

  lemma {:induction false} StructNamesArePlain(u: Universe, id: nat, fields: seq<Candidate>, shape: S.Shape)
    requires Complete(u) && id < |u.structs| && !HitsUnsupported(u, id) && !HitsCycle(u, id)
    requires IsFieldList(u, id, fields) && PlainFrom(u, Struct(id))
    requires shape.Record? && Matches(u, fields, shape, false)
    ensures S.Names(shape, S.Plain)
    decreases shape, 0
  {
    forall i | 0 <= i < |shape.fields|
      ensures S.Names(shape.fields[i].shape, S.Plain)
    {
      FieldIsPlain(u, id, fields, i);
      PrintedNamesArePlain(u, fields[i].typ, shape.fields[i].shape);
    }
    FieldsArePlain(u, id, fields, shape);
  }

  lemma {:induction false} PrintedNamesArePlain(u: Universe, t: Type, shape: S.Shape)
    requires Complete(u) && InRange(u, t) && Unfolds(u, t, shape, false) && PlainFrom(u, t)
    ensures S.Names(shape, S.Plain)
    decreases shape, 1
  {
    match t
    case Struct(id) =>
      if !HitsUnsupported(u, id) {
        var fields: seq<Candidate> :| IsFieldList(u, id, fields) && Matches(u, fields, shape, false);
        StructNamesArePlain(u, id, fields, shape);
      }
    case Other(_) =>
      match NodeOf(u, t)
      case Pointer(e) => PlainBelow(u, t, e); PrintedNamesArePlain(u, e, shape.elem);
      case Slice(e) => PlainBelow(u, t, e); PrintedNamesArePlain(u, e, shape.elem);
      case Array(e) => PlainBelow(u, t, e); PrintedNamesArePlain(u, e, shape.elem);
      case _ =>
  }

  // ----- the comparison

  /** What the printed shapes say of the types' whole ones: everything, if nothing of one was forgotten. */
  lemma PrintedShapesTell(u: Universe, t: Type, a: S.Shape, x: S.Shape, v: Universe, w: Type, b: S.Shape, y: S.Shape)
    requires Complete(u) && InRange(u, t) && Unfolds(u, t, a, false) && Unfolds(u, t, x, true)
    requires Complete(v) && InRange(v, w) && Unfolds(v, w, b, false) && Unfolds(v, w, y, true)
    ensures a == S.Erase(x) && b == S.Erase(y)
    ensures S.Bare(a) || S.Bare(b) ==> (S.Same(a, b) <==> S.Same(x, y))
  {
    PrintedIsErased(u, t, x);
    PrintedIsErased(v, w, y);
    OneShape(u, t, a, S.Erase(x), false);
    OneShape(v, w, b, S.Erase(y), false);
    S.ErasureTells(x, y);
  }

  /** The two types have whole shapes, and they are these. */
  ghost predicate Wholly(u: Universe, t: Type, x: S.Shape, v: Universe, w: Type, y: S.Shape)
    requires Complete(u) && InRange(u, t) && Complete(v) && InRange(v, w)
  {
    Unfolds(u, t, x, true) && Unfolds(v, w, y, true)
  }

  lemma SameContractsMatch(u: Universe, t: Type, a: S.Shape, x: S.Shape, v: Universe, w: Type, b: S.Shape, y: S.Shape)
    requires Complete(u) && InRange(u, t) && Unfolds(u, t, a, false)
    requires Complete(v) && InRange(v, w) && Unfolds(v, w, b, false) && Wholly(u, t, x, v, w, y) && S.Same(x, y)
    ensures S.Sig(a) == S.Sig(b)
  {
    PrintedShapesTell(u, t, a, x, v, w, b, y);
    ShapesAreResolved(u, t, x, true);
    ShapesAreResolved(v, w, y, true);
    S.ShapesPrintAlike(x, y);
    S.ErasurePrintsAlike(x);
    S.ErasurePrintsAlike(y);
  }

  /**
   Two types of two modules, compared by what is printed of them. The same contract always
   matches. A match means the same contract if names are plain and one of the two holds no
   map and no list of bytes; in general it means the same contract up to those.
   */
  method ContractsMatch(u: Universe, t: Type, v: Universe, w: Type, stack: nat)
    returns (same: Option<bool>, ghost a: S.Shape, ghost b: S.Shape)
    requires Complete(u) && InRange(u, t) && Complete(v) && InRange(v, w)
    ensures same.None? ==> Overflows(u, t, stack) || Overflows(v, w, stack)
    ensures same.Some? ==> Unfolds(u, t, a, false) && Unfolds(v, w, b, false)
    ensures same.Some? ==> forall x, y :: Wholly(u, t, x, v, w, y) && S.Same(x, y) ==> same.value
    ensures same.Some? && PlainFrom(u, t) && PlainFrom(v, w) ==> (same.value <==> S.Same(a, b))
    ensures same.Some? && PlainFrom(u, t) && PlainFrom(v, w) && (S.Bare(a) || S.Bare(b)) ==>
              forall x, y :: Wholly(u, t, x, v, w, y) ==> (same.value <==> S.Same(x, y))
  {
    var p, q;
    p, a := Print(u, t, stack);
    b := a;
    if p.None? {
      return None, a, b;
    }
    q, b := Print(v, w, stack);
    if q.None? {
      return None, a, b;
    }
    PrintsTell(u, t, a, v, w, b);
    WholeShapesTell(u, t, a, v, w, b);
    same := Some(p.value == q.value);
  }

  lemma PrintsTell(u: Universe, t: Type, a: S.Shape, v: Universe, w: Type, b: S.Shape)
    requires Complete(u) && InRange(u, t) && Unfolds(u, t, a, false)
    requires Complete(v) && InRange(v, w) && Unfolds(v, w, b, false)
    ensures PlainFrom(u, t) && PlainFrom(v, w) ==> (S.Sig(a) == S.Sig(b) <==> S.Same(a, b))
  {
    ShapesAreResolved(u, t, a, false);
    ShapesAreResolved(v, w, b, false);
    if S.Same(a, b) {
      S.ShapesPrintAlike(a, b);
    }
    if PlainFrom(u, t) && PlainFrom(v, w) && S.Sig(a) == S.Sig(b) {
      PrintedNamesArePlain(u, t, a);
      PrintedNamesArePlain(v, w, b);
      PrintedOnesAreErased(u, t, a);
      PrintedOnesAreErased(v, w, b);
      S.SignatureTellsShapes(a, b);
    }
  }

  lemma WholeShapesTell(u: Universe, t: Type, a: S.Shape, v: Universe, w: Type, b: S.Shape)
    requires Complete(u) && InRange(u, t) && Unfolds(u, t, a, false)
    requires Complete(v) && InRange(v, w) && Unfolds(v, w, b, false)
    ensures forall x, y :: Wholly(u, t, x, v, w, y) && S.Same(x, y) ==> S.Sig(a) == S.Sig(b)
    ensures S.Bare(a) || S.Bare(b) ==> forall x, y :: Wholly(u, t, x, v, w, y) ==> (S.Same(a, b) <==> S.Same(x, y))
  {
    forall x, y | Wholly(u, t, x, v, w, y)
      ensures S.Same(x, y) ==> S.Sig(a) == S.Sig(b)
      ensures S.Bare(a) || S.Bare(b) ==> (S.Same(a, b) <==> S.Same(x, y))
    {
      PrintedShapesTell(u, t, a, x, v, w, b, y);
      if S.Same(x, y) {
        SameContractsMatch(u, t, a, x, v, w, b, y);
      }
    }
  }

  lemma {:induction false} PrintedOnesAreErased(u: Universe, t: Type, shape: S.Shape)
    requires Complete(u) && InRange(u, t) && Unfolds(u, t, shape, false)
    ensures S.Erase(shape) == shape
    decreases shape
  {
    match t
    case Struct(id) =>
      if !HitsUnsupported(u, id) {
        var fields: seq<Candidate> :| IsFieldList(u, id, fields) && Matches(u, fields, shape, false);
        forall i | 0 <= i < |shape.fields| {
          PrintedOnesAreErased(u, fields[i].typ, shape.fields[i].shape);
        }
        assert S.Erase(shape).fields == shape.fields;
      }
    case Other(_) =>
      match NodeOf(u, t)
      case Pointer(e) => PrintedOnesAreErased(u, e, shape.elem);
      case Slice(e) => PrintedOnesAreErased(u, e, shape.elem);
      case Array(e) => PrintedOnesAreErased(u, e, shape.elem);
      case _ =>
  }
}
