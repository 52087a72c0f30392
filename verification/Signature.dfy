/**
 The structural printer whose output stands for a JSON contract. Two things stand between
 equal output and equal shape: a field name may imitate the printer's own punctuation, and
 the printer forgets what a map holds and that a slice of bytes is written as text.
 */
module Signature {
  import opened Sorting

  /**
   A finite type as JSON sees it: exposed fields, elements, kinds. A slice or array is a
   list, except that JSON writes a slice of bytes as text.
   */
  datatype Shape =
    | Record(fields: seq<Property>)
    | List(elem: Shape)
    | Bytes
    | Map(key: Shape, elem: Shape)
    | Pointer(elem: Shape)
    | Leaf(kind: string)

  datatype Property = Property(name: string, shape: Shape)

  function Join(parts: seq<string>): string {
    if parts == [] then ""
    else if |parts| == 1 then parts[0]
    else parts[0] + "," + Join(parts[1..])
  }

  function Part(p: Property): string {
    p.name + ":" + Sig(p.shape)
  }

  function Parts(fields: seq<Property>): seq<string> {
    seq(|fields|, i requires 0 <= i < |fields| => Part(fields[i]))
  }

  function Sig(t: Shape): string {
    match t
    case Record(_) =>
      "{" + Join(Sort(seq(|t.fields|, i requires 0 <= i < |t.fields| => Part(t.fields[i])), StringLeq)) + "}"
    case List(e) => "[]" + Sig(e)
    case Bytes => "[]uint8"
    case Map(_, _) => "map"
    case Pointer(e) => "*" + Sig(e)
    case Leaf(k) => k
  }

  /** How each shape is spelled; fields are written in the order of their texts, with commas between. */
  lemma Spellings(e: Shape, k: string, a: Property, b: Property)
    requires Part(a) != Part(b) && StringLeq(Part(a), Part(b))
    ensures Sig(List(e)) == "[]" + Sig(e) && Sig(Pointer(e)) == "*" + Sig(e) && Sig(Leaf(k)) == k
    ensures Sig(Bytes) == "[]uint8" && Sig(Map(e, e)) == "map" && Sig(Record([])) == "{}"
    ensures Sig(Record([a])) == "{" + Part(a) + "}" && Part(a) == a.name + ":" + Sig(a.shape)
    ensures Sig(Record([a, b])) == Sig(Record([b, a])) == "{" + (Part(a) + "," + Part(b)) + "}"
  {
    StringOrder();
    SortedPair(Part(a), Part(b));
    SigOfRecord(Record([a, b]));
    SigOfRecord(Record([b, a]));
    SigOfRecord(Record([a]));
    assert Parts([a, b]) == [Part(a), Part(b)] && Parts([b, a]) == [Part(b), Part(a)] && Parts([a]) == [Part(a)];
    assert [Part(a), Part(b)][1..] == [Part(b)];
    assert Join([Part(a), Part(b)]) == Part(a) + "," + Part(b);
    assert Sort([Part(a)], StringLeq) == [Part(a)];
  }

  lemma SortedPair(a: string, b: string)
    requires a != b && StringLeq(a, b)
    ensures Sort([a, b], StringLeq) == Sort([b, a], StringLeq) == [a, b]
  {
    StringOrder();
    assert !StringLeq(b, a);
    assert [a, b][1..] == [b] && [b, a][1..] == [a] && [a][1..] == [] && [b][1..] == [];
    var none: seq<string> := [];
    assert Sort(none, StringLeq) == [] && Insert(a, none, StringLeq) == [a] && Insert(b, none, StringLeq) == [b];
    assert Sort([b], StringLeq) == [b];
    assert Sort([a], StringLeq) == [a];
    assert Insert(b, [a], StringLeq) == [a] + Insert(b, [], StringLeq);
  }

  // ----- when two types encode to the same JSON

  ghost predicate SameField(p: Property, q: Property)
    decreases p, 0
  {
    p.name == q.name && Same(p.shape, q.shape)
  }

  ghost predicate Kept(p: Property, gs: seq<Property>)
    decreases p, 1
  {
    exists q :: q in gs && SameField(p, q)
  }

  ghost predicate FoundIn(a: Shape, q: Property)
    requires a.Record?
    decreases a, 0
  {
    exists p :: p in a.fields && SameField(p, q)
  }

  /** The same shape up to the order of fields. */
  ghost predicate Same(a: Shape, b: Shape)
    decreases a, 1
  {
    match a
    case Record(_) =>
      && b.Record?
      && (forall p :: p in a.fields ==> Kept(p, b.fields))
      && (forall q :: q in b.fields ==> FoundIn(a, q))
    case List(e) => b.List? && Same(e, b.elem)
    case Bytes => b.Bytes?
    case Map(k, e) => b.Map? && Same(k, b.key) && Same(e, b.elem)
    case Pointer(e) => b.Pointer? && Same(e, b.elem)
    case Leaf(k) => b == a
  }

  /** No name is used twice in one record, as field resolution guarantees. */
  ghost predicate Resolved(t: Shape) {
    match t
    case Record(_) =>
      && (forall p :: p in t.fields ==> Resolved(p.shape))
      && DistinctNames(t.fields)
    case List(e) => Resolved(e)
    case Bytes => true
    case Map(k, e) => Resolved(k) && Resolved(e)
    case Pointer(e) => Resolved(e)
    case Leaf(_) => true
  }

  predicate IsWord(s: string) {
    s != "" && forall i :: 0 <= i < |s| ==>
                   'a' <= s[i] <= 'z' || 'A' <= s[i] <= 'Z' || '0' <= s[i] <= '9' || s[i] == '.'
  }

  /** The name of a kind that is printed by name and is no map. */
  predicate IsKind(s: string) {
    IsWord(s) && s != "map"
  }

  /** A tag name holds no comma; it is plain if no colon in it comes before a brace. */
  predicate Plain(name: string) {
    ',' !in name && forall i, j :: 0 <= i < j < |name| && name[i] == ':' ==> name[j] != '{'
  }

  /** Leaves are names of kinds that hold nothing, and every field name passes. */
  ghost predicate Names(t: Shape, ok: string -> bool) {
    match t
    case Record(_) => forall p :: p in t.fields ==> ok(p.name) && Names(p.shape, ok)
    case List(e) => Names(e, ok)
    case Bytes => true
    case Map(k, e) => Names(k, ok) && Names(e, ok)
    case Pointer(e) => Names(e, ok)
    case Leaf(k) => IsKind(k)
  }

  // ----- what the printer forgets

  const ANY_MAP := Map(Leaf("any"), Leaf("any"))

  const BYTE := Leaf("uint8")

  /** The shape as it is printed: maps hold anything, and bytes are a list like any other. */
  function Erase(t: Shape): Shape {
    match t
    case Record(_) =>
      Record(seq(|t.fields|, i requires 0 <= i < |t.fields| => Property(t.fields[i].name, Erase(t.fields[i].shape))))
    case List(e) => List(Erase(e))
    case Bytes => List(BYTE)
    case Map(_, _) => ANY_MAP
    case Pointer(e) => Pointer(Erase(e))
    case Leaf(_) => t
  }

  /** The shape holds no map, and no list of bytes of either kind. */
  predicate Bare(t: Shape) {
    match t
    case Record(_) => forall i :: 0 <= i < |t.fields| ==> Bare(t.fields[i].shape)
    case List(e) => e != BYTE && Bare(e)
    case Bytes => false
    case Map(_, _) => false
    case Pointer(e) => Bare(e)
    case Leaf(_) => true
  }

  /** What reading a signature back yields: names are plain and what is forgotten is erased. */
  ghost predicate Readable(t: Shape) {
    match t
    case Record(_) => forall p :: p in t.fields ==> Plain(p.name) && Readable(p.shape)
    case List(e) => Readable(e)
    case Bytes => false
    case Map(_, _) => t == ANY_MAP
    case Pointer(e) => Readable(e)
    case Leaf(k) => IsKind(k)
  }

  lemma {:induction false} ErasureIsReadable(t: Shape)
    requires Names(t, Plain)
    ensures Readable(Erase(t))
  {
    match t
    case Record(_) =>
      forall i | 0 <= i < |t.fields|
        ensures Plain(t.fields[i].name) && Readable(Erase(t.fields[i].shape))
      {
        assert t.fields[i] in t.fields;
        ErasureIsReadable(t.fields[i].shape);
      }
    case List(e) => ErasureIsReadable(e);
    case Pointer(e) => ErasureIsReadable(e);
    case _ =>
  }

  lemma {:induction false} ErasurePrintsAlike(t: Shape)
    ensures Sig(Erase(t)) == Sig(t)
  {
    match t
    case Record(_) =>
      forall i | 0 <= i < |t.fields| {
        ErasurePrintsAlike(t.fields[i].shape);
      }
      assert Parts(Erase(t).fields) == Parts(t.fields);
      SigOfRecord(t);
      SigOfRecord(Erase(t));
    case List(e) => ErasurePrintsAlike(e);
    case Pointer(e) => ErasurePrintsAlike(e);
    case _ =>
  }

  /** A bare shape is all that is printed of it, and no other shape is printed as it is. */
  lemma {:induction false} BareIsErased(t: Shape)
    ensures Bare(t) ==> Erase(t) == t
    ensures Bare(Erase(t)) ==> Bare(t)
  {
    match t
    case Record(_) =>
      forall i | 0 <= i < |t.fields|
        ensures Bare(t.fields[i].shape) ==> Erase(t.fields[i].shape) == t.fields[i].shape
        ensures Bare(Erase(t).fields[i].shape) ==> Bare(t.fields[i].shape)
      {
        BareIsErased(t.fields[i].shape);
      }
      assert Bare(t) ==> Erase(t).fields == t.fields;
    case List(e) => BareIsErased(e);
    case Pointer(e) => BareIsErased(e);
    case _ =>
  }

  lemma {:induction false} SameIsBare(a: Shape, b: Shape)
    requires Same(a, b)
    ensures Bare(a) <==> Bare(b)
    decreases a
  {
    match a
    case Record(_) =>
      forall p | p in a.fields
        ensures Bare(b) ==> Bare(p.shape)
      {
        assert Kept(p, b.fields);
        var q :| q in b.fields && SameField(p, q);
        SameIsBare(p.shape, q.shape);
      }
      forall q | q in b.fields
        ensures Bare(a) ==> Bare(q.shape)
      {
        assert FoundIn(a, q);
        var p :| p in a.fields && SameField(p, q);
        SameIsBare(p.shape, q.shape);
      }
    case List(e) => SameIsBare(e, b.elem);
    case Pointer(e) => SameIsBare(e, b.elem);
    case _ =>
  }


  /** Where nothing was forgotten of one of two shapes, what is printed tells whether they are the same. */
  lemma ErasureTells(a: Shape, b: Shape)
    ensures Bare(Erase(a)) || Bare(Erase(b)) ==> (Same(Erase(a), Erase(b)) <==> Same(a, b))
  {
    BareIsErased(a);
    BareIsErased(b);
    if Same(Erase(a), Erase(b)) {
      SameIsBare(Erase(a), Erase(b));
    }
    if Same(a, b) {
      SameIsBare(a, b);
    }
  }

  // ----- reading a signature back

  /** What may follow a printed shape: closing braces, then the end or a comma. */
  predicate Tail(x: string) {
    x == "" || x[0] == ',' || (x[0] == '}' && Tail(x[1..]))
  }

  lemma {:induction false} ColonAfterComma(x: string, s: string, r: string)
    requires Tail(x) && x == s + ":" + r
    ensures ',' in s
  {
    assert x[|s|] == ':';
    if x[0] == '}' {
      assert s != "" && s[0] == '}';
      assert x[1..] == s[1..] + ":" + r;
      ColonAfterComma(x[1..], s[1..], r);
    } else {
      assert s[0] == ',';
    }
  }

  /** Reading a shape, a colon never comes before the first brace or comma. */
  lemma {:induction false} NoEarlyColon(t: Shape, x: string, s: string, r: string)
    requires Readable(t) && Tail(x) && Sig(t) + x == s + ":" + r
    ensures '{' in s || ',' in s
    decreases t
  {
    var all := Sig(t) + x;
    assert all[|s|] == ':';
    match t
    case Record(_) =>
      assert all[0] == '{' && s[0] == '{';
    case List(e) =>
      assert all[0] == '[' && all[1] == ']';
      assert all[2..] == Sig(e) + x && all[2..] == s[2..] + ":" + r;
      NoEarlyColon(e, x, s[2..], r);
    case Pointer(e) =>
      assert all[0] == '*';
      assert all[1..] == Sig(e) + x && all[1..] == s[1..] + ":" + r;
      NoEarlyColon(e, x, s[1..], r);
    case Map(_, _) =>
      WordThenColon("map", x, s, r);
    case Leaf(k) =>
      WordThenColon(k, x, s, r);
  }

  lemma WordThenColon(k: string, x: string, s: string, r: string)
    requires IsWord(k) && Tail(x) && k + x == s + ":" + r
    ensures ',' in s
  {
    var all := k + x;
    assert all[|s|] == ':';
    assert forall i :: 0 <= i < |k| ==> all[i] == k[i];
    assert all[|k|..] == x && all[|k|..] == s[|k|..] + ":" + r;
    ColonAfterComma(x, s[|k|..], r);
  }

  lemma NameEnds(n: string, t: Shape, x: string, m: string, r: string)
    requires Plain(m) && Readable(t) && Tail(x)
    requires n + ":" + (Sig(t) + x) == m + ":" + r
    ensures |n| >= |m|
  {
    if |n| < |m| {
      var all := m + ":" + r;
      var s := m[|n| + 1..];
      assert m[|n|] == all[|n|] == ':';
      assert all[|n| + 1..] == Sig(t) + x && all[|n| + 1..] == s + ":" + r;
      NoEarlyColon(t, x, s, r);
    }
  }

  /** Closing braces never read as the name of a first field. */
  lemma BraceIsNoName(x: string, n: string, r: string)
    requires Tail(x) && Plain(n)
    ensures "}" + x != n + ":" + r
  {
    if "}" + x == n + ":" + r {
      ColonAfterComma("}" + x, n, r);
    }
  }

  /** Rendered fields, a comma between them and a brace at the end. */
  function Rest(parts: seq<string>): string {
    if parts == [] then "}" else "," + parts[0] + Rest(parts[1..])
  }

  lemma {:induction false} JoinIsRest(parts: seq<string>)
    requires parts != []
    ensures Join(parts) + "}" == parts[0] + Rest(parts[1..])
  {
    if |parts| > 1 {
      JoinIsRest(parts[1..]);
      assert Join(parts) + "}" == parts[0] + ("," + (Join(parts[1..]) + "}"));
      assert Rest(parts[1..]) == "," + parts[1] + Rest(parts[1..][1..]);
      assert "," + parts[1] + Rest(parts[1..][1..]) == "," + (parts[1] + Rest(parts[1..][1..]));
    }
  }

  /** The string is the printed form of one of the fields. */
  ghost predicate Printed(fields: seq<Property>, s: string) {
    exists p :: p in fields && s == Part(p)
  }

  ghost predicate PartsOf(parts: seq<string>, fields: seq<Property>) {
    forall s :: s in parts ==> Printed(fields, s)
  }

  function Body(parts: seq<string>): string {
    Join(parts) + "}"
  }

  lemma SigOfRecord(t: Shape)
    requires t.Record?
    ensures Sig(t) == "{" + Body(Sort(Parts(t.fields), StringLeq))
  {
  }

  lemma InParts(fields: seq<Property>, s: string)
    ensures s in Parts(fields) <==> Printed(fields, s)
  {
    if s in Parts(fields) {
      var i :| 0 <= i < |fields| && Parts(fields)[i] == s;
      assert fields[i] in fields && s == Part(fields[i]);
    }
    if Printed(fields, s) {
      var p :| p in fields && s == Part(p);
      var i :| 0 <= i < |fields| && fields[i] == p;
      assert Parts(fields)[i] == s;
    }
  }

  lemma SortedParts(fields: seq<Property>, s: string)
    ensures s in Sort(Parts(fields), StringLeq) <==> Printed(fields, s)
  {
    StringOrder();
    SortKeepsElements(Parts(fields), StringLeq);
    InParts(fields, s);
  }

  lemma SortedPartsOf(fields: seq<Property>)
    ensures PartsOf(Sort(Parts(fields), StringLeq), fields)
  {
    forall s {
      SortedParts(fields, s);
    }
  }

  lemma RestIsTail(parts: seq<string>, x: string)
    requires Tail(x)
    ensures Tail(Rest(parts) + x)
    ensures (Rest(parts) + x)[0] == if parts == [] then '}' else ','
  {
  }

  lemma PartSplits(p: Property, x: string)
    ensures Part(p) + x == p.name + ":" + (Sig(p.shape) + x)
  {
  }

  lemma {:induction false} FieldsTellApart(p: Property, q: Property, x: string, y: string)
    requires Readable(p.shape) && Readable(q.shape) && Plain(p.name) && Plain(q.name) && Tail(x) && Tail(y)
    requires Part(p) + x == Part(q) + y
    ensures SameField(p, q) && Part(p) == Part(q) && x == y
    decreases p, 2, 0
  {
    var all := Part(p) + x;
    PartSplits(p, x);
    PartSplits(q, y);
    NameEnds(p.name, p.shape, x, q.name, Sig(q.shape) + y);
    NameEnds(q.name, q.shape, y, p.name, Sig(p.shape) + x);
    assert p.name == all[..|p.name|] && q.name == all[..|q.name|];
    assert all[|p.name| + 1..] == Sig(p.shape) + x && all[|p.name| + 1..] == Sig(q.shape) + y;
    TellApart(p.shape, q.shape, x, y);
    assert |Part(p)| == |Part(q)| && Part(p) == all[..|Part(p)|];
  }

  lemma RestSplits(parts: seq<string>, x: string)
    requires parts != []
    ensures (Rest(parts) + x)[1..] == parts[0] + (Rest(parts[1..]) + x)
  {
  }

  lemma BodySplits(parts: seq<string>, x: string)
    requires parts != []
    ensures Body(parts) + x == parts[0] + (Rest(parts[1..]) + x)
  {
    JoinIsRest(parts);
  }

  lemma HeadAndTail<T>(s: seq<T>, t: seq<T>)
    requires s != [] && t != [] && s[0] == t[0] && s[1..] == t[1..]
    ensures s == t
  {
  }

  lemma PartsOfTail(parts: seq<string>, fields: seq<Property>)
    requires PartsOf(parts, fields) && parts != []
    ensures Printed(fields, parts[0]) && PartsOf(parts[1..], fields)
  {
  }

  lemma {:induction false} ListsTellApart(a: Shape, b: Shape, ps: seq<string>, qs: seq<string>, x: string, y: string)
    requires a.Record? && b.Record? && Readable(a) && Readable(b) && Tail(x) && Tail(y)
    requires PartsOf(ps, a.fields) && PartsOf(qs, b.fields) && ps != [] && qs != []
    requires ps[0] + (Rest(ps[1..]) + x) == qs[0] + (Rest(qs[1..]) + y)
    ensures ps == qs && x == y
    decreases a, 1, |ps|
  {
    PartsOfTail(ps, a.fields);
    PartsOfTail(qs, b.fields);
    var p :| p in a.fields && ps[0] == Part(p);
    var q :| q in b.fields && qs[0] == Part(q);
    RestIsTail(ps[1..], x);
    RestIsTail(qs[1..], y);
    FieldsTellApart(p, q, Rest(ps[1..]) + x, Rest(qs[1..]) + y);
    if ps[1..] == [] {
      assert ("}" + x)[1..] == x && ("}" + y)[1..] == y;
    } else {
      RestSplits(ps[1..], x);
      RestSplits(qs[1..], y);
      ListsTellApart(a, b, ps[1..], qs[1..], x, y);
    }
    HeadAndTail(ps, qs);
  }

  /** A record with no fields cannot print like one that has some. */
  lemma EmptyBodyDiffers(b: Shape, qs: seq<string>, x: string, y: string)
    requires b.Record? && Readable(b) && Tail(x) && PartsOf(qs, b.fields) && qs != []
    ensures Body([]) + x != Body(qs) + y
  {
    PartsOfTail(qs, b.fields);
    var q :| q in b.fields && qs[0] == Part(q);
    BodySplits(qs, y);
    PartSplits(q, Rest(qs[1..]) + y);
    BraceIsNoName(x, q.name, Sig(q.shape) + (Rest(qs[1..]) + y));
    assert Body([]) == "}";
  }

  lemma {:induction false} BodiesTellApart(a: Shape, b: Shape, ps: seq<string>, qs: seq<string>, x: string, y: string)
    requires a.Record? && b.Record? && Readable(a) && Readable(b) && Tail(x) && Tail(y)
    requires PartsOf(ps, a.fields) && PartsOf(qs, b.fields) && Body(ps) + x == Body(qs) + y
    ensures ps == qs && x == y
    decreases a, 2, 0
  {
    if ps == [] && qs == [] {
      assert (Body([]) + x)[1..] == x && (Body([]) + y)[1..] == y;
    } else if ps == [] {
      EmptyBodyDiffers(b, qs, x, y);
    } else if qs == [] {
      EmptyBodyDiffers(a, ps, y, x);
    } else {
      BodySplits(ps, x);
      BodySplits(qs, y);
      ListsTellApart(a, b, ps, qs, x, y);
    }
  }

  lemma {:induction false} SamePartsSameRecord(a: Shape, b: Shape)
    requires a.Record? && b.Record? && Readable(a) && Readable(b)
    requires Sort(Parts(a.fields), StringLeq) == Sort(Parts(b.fields), StringLeq)
    ensures Same(a, b)
    decreases a, 2, 0
  {
    forall p | p in a.fields
      ensures Kept(p, b.fields)
    {
      SortedParts(a.fields, Part(p));
      SortedParts(b.fields, Part(p));
      var q :| q in b.fields && Part(p) == Part(q);
      FieldsTellApart(p, q, "", "");
    }
    forall q | q in b.fields
      ensures FoundIn(a, q)
    {
      SortedParts(a.fields, Part(q));
      SortedParts(b.fields, Part(q));
      var p :| p in a.fields && Part(q) == Part(p);
      FieldsTellApart(p, q, "", "");
    }
  }

  lemma {:induction false} RecordsTellApart(a: Shape, b: Shape, x: string, y: string)
    requires a.Record? && b.Record? && Readable(a) && Readable(b) && Tail(x) && Tail(y)
    requires Sig(a) + x == Sig(b) + y
    ensures Same(a, b) && x == y
    decreases a, 2, 1
  {
    var ps, qs := Sort(Parts(a.fields), StringLeq), Sort(Parts(b.fields), StringLeq);
    SigOfRecord(a);
    SigOfRecord(b);
    SortedPartsOf(a.fields);
    SortedPartsOf(b.fields);
    assert (Sig(a) + x)[1..] == Body(ps) + x && (Sig(b) + y)[1..] == Body(qs) + y;
    BodiesTellApart(a, b, ps, qs, x, y);
    SamePartsSameRecord(a, b);
  }

  function Head(t: Shape): char
    requires Readable(t)
  {
    match t
    case Record(_) => '{'
    case List(_) => '['
    case Map(_, _) => 'm'
    case Pointer(_) => '*'
    case Leaf(k) => k[0]
  }

  lemma HeadIsFirst(t: Shape, x: string)
    requires Readable(t)
    ensures Sig(t) != "" && (Sig(t) + x)[0] == Head(t)
  {
  }

  lemma {:induction false} WordsTellApart(k: string, m: string, x: string, y: string)
    requires IsWord(k) && IsWord(m) && Tail(x) && Tail(y) && k + x == m + y
    ensures k == m && x == y
  {
    var all := k + x;
    assert |k| == |m| by {
      assert forall i :: 0 <= i < |k| ==> all[i] == k[i];
      assert forall i :: 0 <= i < |m| ==> all[i] == m[i];
      assert x != "" ==> all[|k|] == x[0];
      assert y != "" ==> all[|m|] == y[0];
    }
    assert k == all[..|k|] && m == all[..|m|] && x == all[|k|..] && y == all[|m|..];
  }

  /** Whatever follows, a printed shape ends where it ends, and tells its shape. */
  lemma {:induction false} TellApart(a: Shape, b: Shape, x: string, y: string)
    requires Readable(a) && Readable(b) && Tail(x) && Tail(y)
    requires Sig(a) + x == Sig(b) + y
    ensures Same(a, b) && x == y
    decreases a, 3, 0
  {
    HeadIsFirst(a, x);
    HeadIsFirst(b, y);
    match a
    case Record(_) =>
      RecordsTellApart(a, b, x, y);
    case List(e) =>
      assert (Sig(a) + x)[2..] == Sig(e) + x && (Sig(b) + y)[2..] == Sig(b.elem) + y;
      TellApart(e, b.elem, x, y);
    case Pointer(e) =>
      assert (Sig(a) + x)[1..] == Sig(e) + x && (Sig(b) + y)[1..] == Sig(b.elem) + y;
      TellApart(e, b.elem, x, y);
    case Map(_, _) =>
      WordsTellApart("map", if b.Map? then "map" else b.kind, x, y);
    case Leaf(k) =>
      WordsTellApart(k, if b.Map? then "map" else b.kind, x, y);
  }

  /** Among plain names equal signatures mean equal shapes, up to what is forgotten. */
  lemma SignatureTellsShapes(a: Shape, b: Shape)
    requires Names(a, Plain) && Names(b, Plain) && Sig(a) == Sig(b)
    ensures Same(Erase(a), Erase(b))
    ensures Bare(a) || Bare(b) ==> Same(a, b)
  {
    ErasureIsReadable(a);
    ErasureIsReadable(b);
    ErasurePrintsAlike(a);
    ErasurePrintsAlike(b);
    assert Sig(Erase(a)) + "" == Sig(Erase(b)) + "";
    TellApart(Erase(a), Erase(b), "", "");
    ErasureTells(a, b);
    BareIsErased(a);
    BareIsErased(b);
  }

  // ----- the order of fields does not show

  lemma PartsWithout(fields: seq<Property>, j: nat)
    requires j < |fields|
    ensures multiset(Parts(fields)) == multiset(Parts(Without(fields, j))) + multiset{Part(fields[j])}
  {
    var ps := Parts(fields);
    assert ps == ps[..j] + [ps[j]] + ps[j + 1..];
    assert Parts(Without(fields, j)) == ps[..j] + ps[j + 1..];
  }

  ghost predicate Alike(p: Property, q: Property) {
    p.name == q.name && Part(p) == Part(q)
  }

  ghost predicate Partnered(fs: seq<Property>, gs: seq<Property>) {
    forall p :: p in fs ==> HasPartner(p, gs)
  }

  ghost predicate HasPartner(p: Property, gs: seq<Property>) {
    exists q :: q in gs && Alike(p, q)
  }

  ghost predicate DistinctNames(fs: seq<Property>) {
    forall i, j :: 0 <= i < j < |fs| ==> fs[i].name != fs[j].name
  }

  function Without(fs: seq<Property>, j: nat): (r: seq<Property>)
    requires j < |fs|
    ensures |r| == |fs| - 1
    ensures forall k :: 0 <= k < |r| ==> r[k] == fs[if k < j then k else k + 1]
  {
    fs[..j] + fs[j + 1..]
  }

  lemma InWithout(fs: seq<Property>, j: nat, p: Property)
    requires DistinctNames(fs) && j < |fs|
    ensures p in Without(fs, j) <==> p in fs && p.name != fs[j].name
  {
  }

  lemma WithoutIsDistinct(fs: seq<Property>, j: nat)
    requires DistinctNames(fs) && j < |fs|
    ensures DistinctNames(Without(fs, j))
  {
  }

  /** Taking a field and its partner away leaves the rest partnered. */
  lemma StillPartnered(fs: seq<Property>, i: nat, gs: seq<Property>, j: nat)
    requires DistinctNames(fs) && DistinctNames(gs) && Partnered(fs, gs)
    requires i < |fs| && j < |gs| && fs[i].name == gs[j].name
    ensures Partnered(Without(fs, i), Without(gs, j))
  {
    forall p | p in Without(fs, i)
      ensures HasPartner(p, Without(gs, j))
    {
      InWithout(fs, i, p);
      var q :| q in gs && Alike(p, q);
      InWithout(gs, j, q);
    }
  }

  lemma {:induction false} PartneredParts(fs: seq<Property>, gs: seq<Property>)
    requires DistinctNames(fs) && DistinctNames(gs) && Partnered(fs, gs) && Partnered(gs, fs)
    ensures multiset(Parts(fs)) == multiset(Parts(gs))
  {
    if fs == [] {
      assert forall q :: q in gs ==> HasPartner(q, fs);
      HasNone(gs);
    } else {
      assert fs[0] in fs;
      var q :| q in gs && Alike(fs[0], q);
      var j :| 0 <= j < |gs| && gs[j] == q;
      PartsWithout(fs, 0);
      PartsWithout(gs, j);
      StillPartnered(fs, 0, gs, j);
      StillPartnered(gs, j, fs, 0);
      WithoutIsDistinct(fs, 0);
      WithoutIsDistinct(gs, j);
      PartneredParts(Without(fs, 0), Without(gs, j));
    }
  }

  lemma PartneredRecords(a: Shape, b: Shape)
    requires a.Record? && b.Record? && DistinctNames(a.fields) && DistinctNames(b.fields)
    requires Partnered(a.fields, b.fields) && Partnered(b.fields, a.fields)
    ensures Sig(a) == Sig(b)
  {
    PartneredParts(a.fields, b.fields);
    StringOrder();
    SortForgetsOrder(Parts(a.fields), Parts(b.fields), StringLeq);
    SigOfRecord(a);
    SigOfRecord(b);
  }

  lemma {:induction false} FieldPrintsAlike(a: Shape, b: Shape, p: Property)
    requires a.Record? && b.Record? && Resolved(a) && Resolved(b) && Same(a, b) && p in a.fields
    ensures HasPartner(p, b.fields)
    decreases a, 0
  {
    assert Kept(p, b.fields);
    var q :| q in b.fields && SameField(p, q);
    ShapesPrintAlike(p.shape, q.shape);
    assert Alike(p, q);
  }

  lemma {:induction false} FieldIsPrintedAlike(a: Shape, b: Shape, q: Property)
    requires a.Record? && b.Record? && Resolved(a) && Resolved(b) && Same(a, b) && q in b.fields
    ensures HasPartner(q, a.fields)
    decreases a, 0
  {
    assert FoundIn(a, q);
    var p :| p in a.fields && SameField(p, q);
    ShapesPrintAlike(p.shape, q.shape);
    assert Alike(q, p);
  }

  /** Equal shapes print alike, in whatever order they declare their fields. */
  lemma {:induction false} ShapesPrintAlike(a: Shape, b: Shape)
    requires Resolved(a) && Resolved(b) && Same(a, b)
    ensures Sig(a) == Sig(b)
    decreases a, 1
  {
    match a
    case Record(_) =>
      forall p | p in a.fields {
        FieldPrintsAlike(a, b, p);
      }
      forall q | q in b.fields {
        FieldIsPrintedAlike(a, b, q);
      }
      PartneredRecords(a, b);
    case List(e) =>
      ShapesPrintAlike(e, b.elem);
    case Pointer(e) =>
      ShapesPrintAlike(e, b.elem);
    case _ =>
  }

  // ----- exactly which alphabets are safe

  /** A name written in the alphabet. Neither a valid tag nor a Go field name is empty. */
  predicate Spelled(alphabet: set<char>, name: string) {
    name != "" && forall i :: 0 <= i < |name| ==> name[i] in alphabet
  }

  ghost predicate Over(alphabet: set<char>, t: Shape) {
    Resolved(t) && Names(t, name => Spelled(alphabet, name))
  }

  function Single(name: string, t: Shape): Shape {
    Record([Property(name, t)])
  }

  lemma SigOfSingle(name: string, t: Shape)
    ensures Sig(Single(name, t)) == "{" + (name + ":" + Sig(t)) + "}"
  {
    var p := Property(name, t);
    SigOfRecord(Single(name, t));
    assert Parts([p]) == [Part(p)];
    assert Sort([Part(p)], StringLeq) == [Part(p)];
  }

  lemma Reassociate(a: string, b: string, c: string)
    ensures "{" + (a + ":" + ("{" + (b + ":{" + c) + "}")) + "}" == "{" + (a + ":{" + b + ":" + ("{" + c + "}")) + "}"
  {
  }

  /** A name that swallows the punctuation of a nested record. */
  lemma NestingCanBeImitated(outer: string, inner: string, last: string, k: string)
    ensures Sig(Single(outer, Single(inner + ":{" + last, Leaf(k))))
            == Sig(Single(outer + ":{" + inner, Single(last, Leaf(k))))
  {
    var a, b := Single(inner + ":{" + last, Leaf(k)), Single(last, Leaf(k));
    SigOfSingle(inner + ":{" + last, Leaf(k));
    SigOfSingle(last, Leaf(k));
    SigOfSingle(outer, a);
    SigOfSingle(outer + ":{" + inner, b);
    Reassociate(outer, inner, last + ":" + k);
    assert inner + ":{" + last + ":" + k == inner + ":{" + (last + ":" + k);
  }

  /** No other shape over the alphabet prints as this one does. */
  ghost predicate ToldApart(alphabet: set<char>, a: Shape) {
    forall b :: Over(alphabet, b) && Sig(a) == Sig(b) ==> Same(a, b)
  }

  ghost predicate TellsBareShapes(alphabet: set<char>) {
    forall a :: Over(alphabet, a) && Bare(a) ==> ToldApart(alphabet, a)
  }

  lemma {:induction false} SafeNamesArePlain(alphabet: set<char>, t: Shape)
    requires ',' !in alphabet && (':' !in alphabet || '{' !in alphabet)
    requires Names(t, name => Spelled(alphabet, name))
    ensures Names(t, Plain)
  {
    match t
    case Record(_) =>
      forall p | p in t.fields {
        SafeNamesArePlain(alphabet, p.shape);
      }
    case List(e) =>
      SafeNamesArePlain(alphabet, e);
    case Map(k, e) =>
      SafeNamesArePlain(alphabet, k);
      SafeNamesArePlain(alphabet, e);
    case Pointer(e) =>
      SafeNamesArePlain(alphabet, e);
    case _ =>
  }

  /**
   Tag names never hold a comma. Over the other characters the printer tells every bare
   shape from every other if and only if a name cannot hold both a colon and an opening brace.
   */
  lemma PrinterIsUnambiguousExactlyWhen(alphabet: set<char>)
    requires ',' !in alphabet
    ensures TellsBareShapes(alphabet) <==> ':' !in alphabet || '{' !in alphabet
  {
    if ':' !in alphabet || '{' !in alphabet {
      forall a, b | Over(alphabet, a) && Bare(a) && Over(alphabet, b) && Sig(a) == Sig(b)
        ensures Same(a, b)
      {
        SafeNamesArePlain(alphabet, a);
        SafeNamesArePlain(alphabet, b);
        SignatureTellsShapes(a, b);
      }
    } else {
      NestingCollides(alphabet);
    }
  }

  lemma SingleIsOver(alphabet: set<char>, name: string, t: Shape)
    requires Over(alphabet, t) && Spelled(alphabet, name)
    ensures Over(alphabet, Single(name, t))
  {
  }

  lemma NestingCollides(alphabet: set<char>)
    requires ':' in alphabet && '{' in alphabet
    ensures !TellsBareShapes(alphabet)
  {
    var inner, last := Single("::{:", Leaf("int")), Single(":", Leaf("int"));
    var a, b := Single(":", inner), Single("::{:", last);
    NestingCanBeImitated(":", ":", ":", "int");
    assert ":" + ":{" + ":" == "::{:";
    SingleIsOver(alphabet, "::{:", Leaf("int"));
    SingleIsOver(alphabet, ":", Leaf("int"));
    SingleIsOver(alphabet, ":", inner);
    SingleIsOver(alphabet, "::{:", last);
    assert a.fields[0] in a.fields;
    assert forall q :: q in b.fields ==> !SameField(a.fields[0], q);
    assert !Same(a, b) && Bare(a);
    assert !ToldApart(alphabet, a);
  }

  // ----- exactly which shapes are told apart

  /** A shape that differs from this one by its kind alone. */
  function Unlike(t: Shape): Shape {
    if t.Leaf? then List(Leaf("int")) else Leaf("int")
  }

  /** The same shape to the printer: every map retyped, every list of bytes of the other kind. */
  function Twist(t: Shape): Shape {
    match t
    case Record(_) =>
      Record(seq(|t.fields|, i requires 0 <= i < |t.fields| => Property(t.fields[i].name, Twist(t.fields[i].shape))))
    case List(e) => if e == BYTE then Bytes else List(Twist(e))
    case Bytes => List(BYTE)
    case Map(k, e) => Map(k, Unlike(e))
    case Pointer(e) => Pointer(Twist(e))
    case Leaf(_) => t
  }

  lemma {:induction false} TwistPrintsAlike(t: Shape)
    ensures Sig(Twist(t)) == Sig(t)
  {
    match t
    case Record(_) =>
      forall i | 0 <= i < |t.fields| {
        TwistPrintsAlike(t.fields[i].shape);
      }
      assert Parts(Twist(t).fields) == Parts(t.fields);
      SigOfRecord(t);
      SigOfRecord(Twist(t));
    case List(e) => TwistPrintsAlike(e);
    case Pointer(e) => TwistPrintsAlike(e);
    case _ =>
  }

  lemma {:induction false} TwistIsOver(alphabet: set<char>, t: Shape)
    requires Over(alphabet, t)
    ensures Over(alphabet, Twist(t))
  {
    match t
    case Record(_) =>
      forall i | 0 <= i < |t.fields|
        ensures Over(alphabet, Twist(t.fields[i].shape)) && Spelled(alphabet, t.fields[i].name)
      {
        assert t.fields[i] in t.fields;
        TwistIsOver(alphabet, t.fields[i].shape);
      }
    case List(e) => TwistIsOver(alphabet, e);
    case Pointer(e) => TwistIsOver(alphabet, e);
    case _ =>
  }

  lemma {:induction false} TwistDiffers(t: Shape)
    requires Resolved(t) && !Bare(t)
    ensures !Same(t, Twist(t))
  {
    match t
    case Record(_) =>
      var i :| 0 <= i < |t.fields| && !Bare(t.fields[i].shape);
      var p := t.fields[i];
      assert p in t.fields;
      TwistDiffers(p.shape);
      forall q | q in Twist(t).fields
        ensures !SameField(p, q)
      {
        var j :| 0 <= j < |t.fields| && Twist(t).fields[j] == q;
        assert j != i ==> t.fields[j].name != p.name;
      }
      assert !Kept(p, Twist(t).fields);
    case List(e) =>
      if e != BYTE {
        TwistDiffers(e);
      }
    case Pointer(e) => TwistDiffers(e);
    case _ =>
  }

  /** Over a safe alphabet a shape is told from every other if and only if it is bare. */
  lemma ShapeIsToldApartExactlyWhen(alphabet: set<char>, a: Shape)
    requires ',' !in alphabet && (':' !in alphabet || '{' !in alphabet) && Over(alphabet, a)
    ensures ToldApart(alphabet, a) <==> Bare(a)
  {
    if Bare(a) {
      PrinterIsUnambiguousExactlyWhen(alphabet);
    } else {
      TwistPrintsAlike(a);
      TwistIsOver(alphabet, a);
      TwistDiffers(a);
    }
  }

  /** struct{A map[string]int} against struct{A map[string]string}. */
  lemma RetypedMapIsMissed()
    ensures var a, b := Map(Leaf("string"), Leaf("int")), Map(Leaf("string"), Leaf("string"));
            Sig(Single("A", a)) == Sig(Single("A", b)) && !Same(Single("A", a), Single("A", b))
  {
    var a, b := Map(Leaf("string"), Leaf("int")), Map(Leaf("string"), Leaf("string"));
    SigOfSingle("A", a);
    SigOfSingle("A", b);
    SinglesDiffer("A", a, b);
  }

  /** struct{A []byte} against struct{A [4]byte}. */
  lemma RetypedBytesAreMissed()
    ensures Sig(Single("A", Bytes)) == Sig(Single("A", List(BYTE)))
            && !Same(Single("A", Bytes), Single("A", List(BYTE)))
  {
    SigOfSingle("A", Bytes);
    SigOfSingle("A", List(BYTE));
    SinglesDiffer("A", Bytes, List(BYTE));
  }

  lemma SinglesDiffer(name: string, t: Shape, v: Shape)
    requires !Same(t, v)
    ensures !Same(Single(name, t), Single(name, v))
  {
    assert Property(name, t) in Single(name, t).fields;
    assert forall q :: q in Single(name, v).fields ==> !SameField(Property(name, t), q);
  }
}
