/**
 What the answer of field resolution means in the words of JSON's own rules: which fields
 count, what they are called, and which of several of one name wins.
 */
module FieldRules {
  import opened Options
  import opened Sorting
  import opened TypeGraph
  import opened FieldSearch
  import opened FieldResolution

  // ----- one field

  /** A struct, or a pointer to one. */
  predicate StructLike(u: Universe, t: Type) {
    t.Struct? || (t.id < |u.types| && u.types[t.id].Pointer? && u.types[t.id].elem.Struct?)
  }

  function StructIn(u: Universe, t: Type): nat
    requires StructLike(u, t)
  {
    if t.Struct? then t.id else u.types[t.id].elem.id
  }

  /** Brought in without a name of its own: an anonymous struct field with no tag. */
  predicate BroughtIn(u: Universe, f: StructField) {
    f.anonymous && f.tag == "" && StructLike(u, f.typ)
  }

  /** JSON sees a field exactly if it is exported, not dashed out, and not brought in. */
  lemma SeenExactlyWhen(u: Universe, t: nat, i: nat)
    requires t < |u.structs| && i < |u.structs[t]|
    ensures var f := u.structs[t][i];
            Exposed(u, t, i) <==> f.exported && !f.dash && !BroughtIn(u, f)
  {
  }

  /** A struct is looked into exactly if its field is brought in and not dashed out, exported or not. */
  lemma LookedIntoExactlyWhen(u: Universe, t: nat, i: nat)
    requires t < |u.structs| && i < |u.structs[t]|
    ensures var f := u.structs[t][i];
            && (EmbedAt(u, t, i).Some? <==> BroughtIn(u, f) && !f.dash)
            && (EmbedAt(u, t, i).Some? ==> EmbedAt(u, t, i).value == StructIn(u, f.typ))
  {
  }

  /** The name JSON writes: the tag's if it has one, else the Go name. */
  function JsonName(f: StructField): string {
    if f.tag == "" then f.name else f.tag
  }

  /** c is the field k of struct s, found along path p. */
  ghost predicate IsField(u: Universe, root: nat, c: Candidate, s: nat, p: seq<nat>, k: nat)
    requires Closed(u) && root < |u.structs|
  {
    && s < |u.structs| && k < |u.structs[s]| && c.index == p + [k] && TypeAt(u, root, p) == Some(s)
    && var f := u.structs[s][k];
       && f.exported && !f.dash && !BroughtIn(u, f)
       && c.name == JsonName(f) && c.typ == f.typ && c.omitEmpty == f.omitEmpty
       && c.depth == |p| && (c.tagged <==> f.tag != "")
  }

  /** p leads to s, by no more steps than any other path does, and first among those as short. */
  ghost predicate FirstShortest(u: Universe, root: nat, s: nat, p: seq<nat>)
    requires Closed(u) && root < |u.structs|
  {
    && TypeAt(u, root, p) == Some(s)
    && forall q :: TypeAt(u, root, q) == Some(s) ==> |p| < |q| || (|p| == |q| && PathLeq(p, q))
  }

  lemma LeastIsFirstShortest(u: Universe, root: nat, s: nat, p: seq<nat>)
    requires Closed(u) && root < |u.structs|
    ensures LeastPath(u, root, s, p) <==> FirstShortest(u, root, s, p)
  {
    if FirstShortest(u, root, s, p) {
      assert Reaches(u, root, s, p);
    }
    if LeastPath(u, root, s, p) {
      forall q | TypeAt(u, root, q) == Some(s)
        ensures |p| < |q| || (|p| == |q| && PathLeq(p, q))
      {
        assert Reaches(u, root, s, q);
      }
    }
  }

  /**
   Every contender is a field of the struct its index leads to, along the first shortest path,
   under its JSON name.
   */
  lemma ContendersAreFields(u: Universe, root: nat, c: Candidate) returns (s: nat, p: seq<nat>, k: nat)
    requires Closed(u) && root < |u.structs| && Contender(u, root, c)
    ensures IsField(u, root, c, s, p, k) && FirstShortest(u, root, s, p)
  {
    p, k := c.index[..|c.index| - 1], c.index[|c.index| - 1];
    s := TypeAt(u, root, p).value;
    assert c.index == p + [k];
    LeastIsFirstShortest(u, root, s, p);
    SeenExactlyWhen(u, s, k);
  }

  /** And every such field is a contender. */
  lemma FieldsAreContenders(u: Universe, root: nat, c: Candidate, s: nat, p: seq<nat>, k: nat)
    requires Closed(u) && root < |u.structs| && IsField(u, root, c, s, p, k) && FirstShortest(u, root, s, p)
    ensures Contender(u, root, c)
  {
    SeenExactlyWhen(u, s, k);
    LeastIsFirstShortest(u, root, s, p);
    assert c.index[..|c.index| - 1] == p;
  }

  /** Index paths are ordered as words are: by the first step in which they differ. */
  lemma {:induction false} OrderOfPaths(p: seq<nat>, q: seq<nat>)
    ensures PathLeq(p, q) <==> p <= q || exists i :: 0 <= i < |p| && i < |q| && p[..i] == q[..i] && p[i] < q[i]
  {
    if p != [] && q != [] {
      if p[0] == q[0] {
        OrderOfPaths(p[1..], q[1..]);
        assert p <= q <==> p[1..] <= q[1..];
        if i :| 0 <= i < |p| && i < |q| && p[..i] == q[..i] && p[i] < q[i] {
          assert p[1..][..i - 1] == p[..i][1..] && q[1..][..i - 1] == q[..i][1..];
        }
        if i :| 0 <= i < |p[1..]| && i < |q[1..]| && p[1..][..i] == q[1..][..i] && p[1..][i] < q[1..][i] {
          assert p[..i + 1] == [p[0]] + p[1..][..i] && q[..i + 1] == [q[0]] + q[1..][..i];
        }
      } else if p[0] < q[0] {
        assert p[..0] == q[..0];
      } else {
        assert forall i :: 0 <= i < |p| && i < |q| && p[..i] == q[..i] && i > 0 ==> p[..i][0] == q[..i][0];
      }
    }
  }

  // ----- what the answer lists

  /** Every field of an answer has the JSON name, the type and the omitempty of the Go field its index leads to. */
  lemma AnsweredFieldsAreAsTagged(u: Universe, root: nat, fields: seq<Candidate>, seen: seq<Field>, j: nat)
    returns (s: nat, p: seq<nat>, k: nat)
    requires Closed(u) && root < |u.structs| && Describes(u, root, fields, seen) && j < |seen|
    ensures TypeAt(u, root, p) == Some(s) && s < |u.structs| && k < |u.structs[s]| && fields[j].index == p + [k]
    ensures var f := u.structs[s][k];
            && f.exported && !f.dash && !BroughtIn(u, f)
            && seen[j].name == (if f.tag == "" then f.name else f.tag)
            && seen[j].typ == f.typ && seen[j].omitEmpty == f.omitEmpty
  {
    assert fields[j] in fields;
    s, p, k := ContendersAreFields(u, root, fields[j]);
  }

  /** Of two listed fields the one declared first, along index paths, comes first. */
  lemma AnswersAreInOrder(u: Universe, root: nat, fields: seq<Candidate>, seen: seq<Field>, i: nat, j: nat)
    requires Closed(u) && root < |u.structs| && Describes(u, root, fields, seen) && i < j < |seen|
    ensures fields[i].index != fields[j].index && PathLeq(fields[i].index, fields[j].index)
  {
    assert PathLess(fields[i].index, fields[j].index);
  }

  /**
   Which of several fields of one name wins: one is listed exactly if its struct is embedded
   once by the level above, and each other field of the name lies deeper, or as deep
   but untagged where this one is tagged.
   */
  lemma ListedExactlyWhen(u: Universe, root: nat, fields: seq<Candidate>, c: Candidate)
    requires Closed(u) && root < |u.structs| && IsFieldList(u, root, fields)
    ensures c in fields
            <==> && Contender(u, root, c) && !OwnerDoubled(u, root, c)
                 && forall x :: Contender(u, root, x) && x != c && x.name == c.name ==>
                      |c.index| < |x.index| || (|c.index| == |x.index| && c.tagged && !x.tagged)
  {
    if Contender(u, root, c) {
      forall x | Contender(u, root, x)
        ensures x.depth == |x.index| - 1
        ensures Rivals(u, root, c, x) <==> x.name == c.name && x.depth == c.depth && x != c
      {
        var s, p, k := ContendersAreFields(u, root, x);
      }
      DominanceInPairs(u, root, c);
    }
  }

  lemma DominanceInPairs(u: Universe, root: nat, c: Candidate)
    requires Closed(u) && root < |u.structs| && Contender(u, root, c)
    ensures Dominates(u, root, c)
            <==> && !OwnerDoubled(u, root, c)
                 && forall x :: Contender(u, root, x) && x != c && x.name == c.name ==>
                      c.depth < x.depth || (c.depth == x.depth && c.tagged && !x.tagged)
  {
    if Dominates(u, root, c) {
      forall x | Contender(u, root, x) && x != c && x.name == c.name
        ensures c.depth < x.depth || (c.depth == x.depth && c.tagged && !x.tagged)
      {
        assert x.depth == c.depth ==> Rivals(u, root, c, x);
      }
    } else if forall x :: Contender(u, root, x) && x != c && x.name == c.name ==>
                c.depth < x.depth || (c.depth == x.depth && c.tagged && !x.tagged) {
      assert forall x :: Rivals(u, root, c, x) ==> c.tagged && !x.tagged;
    }
  }
}
