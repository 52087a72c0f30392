/**
 Which of the listed candidates JSON sees: conflicts are resolved name by name, in
 whatever order the map yields the names, and the survivors are sorted by index path.
 */
module FieldResolution {
  import opened Options
  import opened Sorting
  import opened TypeGraph
  import opened FieldSearch
  import opened TypeChecks

  // ----- one name

  function Filter<T>(s: seq<T>, p: T -> bool): seq<T> {
    if s == [] then [] else Filter(s[..|s| - 1], p) + (if p(s[|s| - 1]) then [s[|s| - 1]] else [])
  }

  function Named(s: seq<Candidate>, name: string): seq<Candidate> {
    Filter(s, (c: Candidate) => c.name == name)
  }

  function AtLevel(s: seq<Candidate>, depth: nat): seq<Candidate> {
    Filter(s, (c: Candidate) => c.depth == depth)
  }

  function Tagged(s: seq<Candidate>): seq<Candidate> {
    Filter(s, (c: Candidate) => c.tagged)
  }

  ghost predicate IsLeast(s: seq<Candidate>, depth: nat) {
    && (exists c :: c in s && c.depth == depth)
    && (forall c :: c in s ==> depth <= c.depth)
  }

  /** The winner among candidates of one name at their least depth, if there is one. */
  function Winner(shallowest: seq<Candidate>): Option<Candidate> {
    if |shallowest| == 1 then Some(shallowest[0])
    else if |Tagged(shallowest)| == 1 then Some(Tagged(shallowest)[0])
    else None
  }

  /** c is what remains of the candidates that bear its name. */
  ghost predicate Survives(s: seq<Candidate>, c: Candidate) {
    exists depth :: IsLeast(Named(s, c.name), depth) && Winner(AtLevel(Named(s, c.name), depth)) == Some(c)
  }

  lemma {:induction false} InFilter<T>(s: seq<T>, p: T -> bool, x: T)
    ensures x in Filter(s, p) <==> x in s && p(x)
  {
    if s != [] {
      InFilter(s[..|s| - 1], p, x);
    }
  }

  lemma {:induction false} FilterCounts<T>(s: seq<T>, p: T -> bool, x: T)
    requires p(x)
    ensures multiset(Filter(s, p))[x] == multiset(s)[x]
  {
    if s != [] {
      FilterCounts(s[..|s| - 1], p, x);
      assert s == s[..|s| - 1] + [s[|s| - 1]];
    }
  }

  lemma {:induction false} AllSame<T>(f: seq<T>, c: T)
    requires forall k :: 0 <= k < |f| ==> f[k] == c
    ensures multiset(f)[c] == |f|
  {
    if f != [] {
      assert f == [f[0]] + f[1..];
      AllSame(f[1..], c);
    }
  }

  /** A filter keeps just c when c is listed once and nothing else passes. */
  lemma AloneInFilter<T>(s: seq<T>, p: T -> bool, c: T)
    ensures Filter(s, p) == [c] <==> p(c) && multiset(s)[c] == 1 && forall x :: x in s && p(x) ==> x == c
  {
    var f := Filter(s, p);
    InFilter(s, p, c);
    if f == [c] {
      FilterCounts(s, p, c);
      forall x | x in s && p(x)
        ensures x == c
      {
        InFilter(s, p, x);
      }
    }
    if p(c) && multiset(s)[c] == 1 && forall x :: x in s && p(x) ==> x == c {
      FilterCounts(s, p, c);
      forall k | 0 <= k < |f|
        ensures f[k] == c
      {
        InFilter(s, p, f[k]);
      }
      AllSame(f, c);
    }
  }

  /** The least depth in a group, found by a scan. */
  method LeastDepth(group: seq<Candidate>) returns (least: nat)
    requires group != []
    ensures IsLeast(group, least)
  {
    least := group[0].depth;
    for i := 1 to |group|
      invariant exists c :: c in group[..i] && c.depth == least
      invariant forall c :: c in group[..i] ==> least <= c.depth
    {
      if group[i].depth < least {
        least := group[i].depth;
      }
      assert group[..i + 1] == group[..i] + [group[i]];
    }
    assert group[..|group|] == group;
  }

  method AtLeast(group: seq<Candidate>, least: nat) returns (kept: seq<Candidate>)
    ensures kept == AtLevel(group, least)
  {
    kept := [];
    for i := 0 to |group|
      invariant kept == AtLevel(group[..i], least)
    {
      assert group[..i + 1][..i] == group[..i];
      if group[i].depth == least {
        kept := kept + [group[i]];
      }
    }
    assert group[..|group|] == group;
  }

  method OnlyTagged(group: seq<Candidate>) returns (kept: seq<Candidate>)
    ensures kept == Tagged(group)
  {
    kept := [];
    for i := 0 to |group|
      invariant kept == Tagged(group[..i])
    {
      assert group[..i + 1][..i] == group[..i];
      if group[i].tagged {
        kept := kept + [group[i]];
      }
    }
    assert group[..|group|] == group;
  }

  // ----- all names

  ghost predicate Groups(byName: map<string, seq<Candidate>>, s: seq<Candidate>) {
    && (forall name :: name in byName ==> byName[name] == Named(s, name) != [])
    && (forall c :: c in s ==> c.name in byName)
  }

  lemma NamedGrows(s: seq<Candidate>, c: Candidate, name: string)
    ensures Named(s + [c], name) == Named(s, name) + (if c.name == name then [c] else [])
  {
  }

  lemma NotYetNamed(byName: map<string, seq<Candidate>>, s: seq<Candidate>, name: string)
    requires Groups(byName, s) && name !in byName
    ensures Named(s, name) == []
  {
    forall x
      ensures x !in Named(s, name)
    {
      InLevel(s, name, 0, x);
    }
    HasNone(Named(s, name));
  }

  lemma GroupsGrow(byName: map<string, seq<Candidate>>, s: seq<Candidate>, c: Candidate)
    requires Groups(byName, s)
    ensures Groups(byName[c.name := (if c.name in byName then byName[c.name] else []) + [c]], s + [c])
  {
    var more := byName[c.name := (if c.name in byName then byName[c.name] else []) + [c]];
    if c.name !in byName {
      NotYetNamed(byName, s, c.name);
    }
    forall name | name in more
      ensures more[name] == Named(s + [c], name) != []
    {
      NamedGrows(s, c, name);
    }
  }

  method GroupByName(s: seq<Candidate>) returns (byName: map<string, seq<Candidate>>)
    ensures Groups(byName, s)
  {
    byName := map[];
    for i := 0 to |s|
      invariant Groups(byName, s[..i])
    {
      var c := s[i];
      GroupsGrow(byName, s[..i], c);
      byName := byName[c.name := (if c.name in byName then byName[c.name] else []) + [c]];
      assert s[..i + 1] == s[..i] + [c];
    }
    assert s[..|s|] == s;
  }

  method ResolveGroup(group: seq<Candidate>) returns (winner: Option<Candidate>)
    requires group != []
    ensures exists depth :: IsLeast(group, depth) && winner == Winner(AtLevel(group, depth))
  {
    var least := LeastDepth(group);
    var shallowest := AtLeast(group, least);
    if |shallowest| == 1 {
      return Some(shallowest[0]);
    }
    var tagged := OnlyTagged(shallowest);
    winner := if |tagged| == 1 then Some(tagged[0]) else None;
  }

  ghost predicate DifferentNames(s: seq<Candidate>) {
    forall i, j :: 0 <= i < j < |s| ==> s[i].name != s[j].name
  }

  /** One name more: only candidates of that name can join. */
  lemma WinnerIsNamed(s: seq<Candidate>, name: string, depth: nat)
    requires Winner(AtLevel(Named(s, name), depth)).Some?
    ensures var c := Winner(AtLevel(Named(s, name), depth)).value; c.name == name && c in s && c.depth == depth
  {
    var group := Named(s, name);
    var level := AtLevel(group, depth);
    var c := Winner(level).value;
    InFilter(level, (x: Candidate) => x.tagged, c);
    InFilter(group, (x: Candidate) => x.depth == depth, c);
    InFilter(s, (x: Candidate) => x.name == name, c);
  }

  lemma LeastIsOne(s: seq<Candidate>, a: nat, b: nat)
    requires IsLeast(s, a) && IsLeast(s, b)
    ensures a == b
  {
  }

  lemma ResolvedGrows(s: seq<Candidate>, name: string, winner: Option<Candidate>, c: Candidate)
    requires exists depth :: IsLeast(Named(s, name), depth) && winner == Winner(AtLevel(Named(s, name), depth))
    ensures Survives(s, c) && c.name == name <==> winner == Some(c)
  {
    var depth :| IsLeast(Named(s, name), depth) && winner == Winner(AtLevel(Named(s, name), depth));
    if winner.Some? {
      WinnerIsNamed(s, name, depth);
    }
    if Survives(s, c) && c.name == name {
      var other :| IsLeast(Named(s, name), other) && Winner(AtLevel(Named(s, name), other)) == Some(c);
      LeastIsOne(Named(s, name), depth, other);
    }
  }

  /** The names come in any order, as a map yields them. */
  method ResolveConflicts(s: seq<Candidate>) returns (resolved: seq<Candidate>)
    ensures DifferentNames(resolved)
    ensures forall c :: c in resolved <==> Survives(s, c)
  {
    var byName := GroupByName(s);
    var pending := byName.Keys;
    resolved := [];
    while pending != {}
      invariant pending <= byName.Keys
      invariant DifferentNames(resolved)
      invariant forall c :: c in resolved <==> Survives(s, c) && c.name in byName.Keys - pending
      decreases |pending|
    {
      var name :| name in pending;
      pending := pending - {name};
      var winner := ResolveGroup(byName[name]);
      forall c {
        ResolvedGrows(s, name, winner, c);
      }
      if winner.Some? {
        resolved := resolved + [winner.value];
      }
    }
    forall c | Survives(s, c)
      ensures c.name in byName
    {
      var depth :| IsLeast(Named(s, c.name), depth) && Winner(AtLevel(Named(s, c.name), depth)) == Some(c);
      WinnerIsNamed(s, c.name, depth);
    }
  }

  // ----- the survivors are the dominant fields

  /** c is listed once, at the least depth of its name, alone there or alone in being tagged. */
  ghost predicate Prevails(s: seq<Candidate>, c: Candidate) {
    && multiset(s)[c] == 1
    && (forall x :: x in s && x.name == c.name ==> c.depth <= x.depth)
    && (|| (forall x :: x in s && x.name == c.name && x.depth == c.depth ==> x == c)
        || (c.tagged && forall x :: x in s && x.name == c.name && x.depth == c.depth && x.tagged ==> x == c))
  }

  lemma InLevel(s: seq<Candidate>, name: string, depth: nat, x: Candidate)
    ensures x in Named(s, name) <==> x in s && x.name == name
    ensures x in AtLevel(Named(s, name), depth) <==> x in s && x.name == name && x.depth == depth
    ensures x.name == name ==> multiset(Named(s, name))[x] == multiset(s)[x]
    ensures x.name == name && x.depth == depth ==> multiset(AtLevel(Named(s, name), depth))[x] == multiset(s)[x]
  {
    var byName, byDepth := (c: Candidate) => c.name == name, (c: Candidate) => c.depth == depth;
    InFilter(s, byName, x);
    InFilter(Named(s, name), byDepth, x);
    if x.name == name {
      FilterCounts(s, byName, x);
      if x.depth == depth {
        FilterCounts(Named(s, name), byDepth, x);
      }
    }
  }

  lemma LeastOfName(s: seq<Candidate>, c: Candidate)
    requires c in s
    ensures IsLeast(Named(s, c.name), c.depth) <==> forall x :: x in s && x.name == c.name ==> c.depth <= x.depth
  {
    forall x {
      InLevel(s, c.name, c.depth, x);
    }
  }

  lemma WinnerMeans(level: seq<Candidate>, c: Candidate)
    ensures Winner(level) == Some(c) <==> level == [c] || (|level| != 1 && Tagged(level) == [c])
  {
  }

  lemma {:induction false} FilterTwice<T(!new)>(s: seq<T>, p: T -> bool, q: T -> bool, both: T -> bool)
    requires forall x :: both(x) <==> p(x) && q(x)
    ensures Filter(Filter(s, p), q) == Filter(s, both)
  {
    if s != [] {
      var before, last := s[..|s| - 1], s[|s| - 1];
      FilterTwice(before, p, q, both);
      assert (Filter(before, p) + [last])[..|Filter(before, p)|] == Filter(before, p);
      assert Filter(before, p) + [] == Filter(before, p);
      assert both(last) <==> p(last) && q(last);
    }
  }

  ghost predicate AloneAtLevel(s: seq<Candidate>, c: Candidate) {
    multiset(s)[c] == 1 && forall x :: x in s && x.name == c.name && x.depth == c.depth ==> x == c
  }

  ghost predicate OnlyTaggedAtLevel(s: seq<Candidate>, c: Candidate) {
    && multiset(s)[c] == 1 && c.tagged
    && forall x :: x in s && x.name == c.name && x.depth == c.depth && x.tagged ==> x == c
  }

  lemma AloneOrOnlyTagged(s: seq<Candidate>, c: Candidate)
    ensures AtLevel(Named(s, c.name), c.depth) == [c] <==> AloneAtLevel(s, c)
    ensures Tagged(AtLevel(Named(s, c.name), c.depth)) == [c] <==> OnlyTaggedAtLevel(s, c)
  {
    var atLevel := (x: Candidate) => x.name == c.name && x.depth == c.depth;
    var taggedThere := (x: Candidate) => x.name == c.name && x.depth == c.depth && x.tagged;
    FilterTwice(s, (x: Candidate) => x.name == c.name, (x: Candidate) => x.depth == c.depth, atLevel);
    FilterTwice(s, atLevel, (x: Candidate) => x.tagged, taggedThere);
    AloneInFilter(s, atLevel, c);
    AloneInFilter(s, taggedThere, c);
  }

  lemma SurvivesAt(s: seq<Candidate>, c: Candidate)
    ensures Survives(s, c)
            <==> c in s && IsLeast(Named(s, c.name), c.depth) && Winner(AtLevel(Named(s, c.name), c.depth)) == Some(c)
  {
    if Survives(s, c) {
      var depth :| IsLeast(Named(s, c.name), depth) && Winner(AtLevel(Named(s, c.name), depth)) == Some(c);
      WinnerIsNamed(s, c.name, depth);
    }
  }

  lemma AloneMakesOneWinner(s: seq<Candidate>, c: Candidate)
    requires c in s
    ensures Winner(AtLevel(Named(s, c.name), c.depth)) == Some(c) <==> AloneAtLevel(s, c) || OnlyTaggedAtLevel(s, c)
  {
    var level := AtLevel(Named(s, c.name), c.depth);
    WinnerMeans(level, c);
    AloneOrOnlyTagged(s, c);
    InLevel(s, c.name, c.depth, c);
    assert Tagged(level) == [c] && |level| == 1 ==> level == [c];
  }

  lemma SurvivingIsPrevailing(s: seq<Candidate>, c: Candidate)
    ensures Survives(s, c) <==> Prevails(s, c)
  {
    SurvivesAt(s, c);
    if c in s {
      LeastOfName(s, c);
      AloneMakesOneWinner(s, c);
    }
    assert c in s <==> multiset(s)[c] > 0;
  }

  lemma ListedMeansContender(u: Universe, root: nat, s: seq<Candidate>, c: Candidate)
    requires Closed(u) && root < |u.structs| && ListsAll(u, root, s)
    ensures c in s <==> Contender(u, root, c)
    ensures Contender(u, root, c) ==> (multiset(s)[c] == 1 <==> !OwnerDoubled(u, root, c))
  {
  }

  lemma PrevailingDominates(u: Universe, root: nat, s: seq<Candidate>, c: Candidate)
    requires Closed(u) && root < |u.structs| && ListsAll(u, root, s) && Prevails(s, c)
    ensures Dominates(u, root, c)
  {
    ListedMeansContender(u, root, s, c);
    assert c in s;
    forall x | Contender(u, root, x)
      ensures x in s
    {
      ListedMeansContender(u, root, s, x);
    }
  }

  lemma DominantPrevails(u: Universe, root: nat, s: seq<Candidate>, c: Candidate)
    requires Closed(u) && root < |u.structs| && ListsAll(u, root, s) && Dominates(u, root, c)
    ensures Prevails(s, c)
  {
    ListedMeansContender(u, root, s, c);
    forall x | x in s
      ensures Contender(u, root, x)
    {
      ListedMeansContender(u, root, s, x);
    }
    forall x | x in s && x.name == c.name && x.depth == c.depth && x != c
      ensures Rivals(u, root, c, x)
    {
    }
  }

  /** Whatever the search listed, resolving its conflicts leaves exactly the dominant fields. */
  lemma SurvivorsDominate(u: Universe, root: nat, s: seq<Candidate>, c: Candidate)
    requires Closed(u) && root < |u.structs| && ListsAll(u, root, s)
    ensures Survives(s, c) <==> Dominates(u, root, c)
  {
    SurvivingIsPrevailing(s, c);
    if Prevails(s, c) {
      PrevailingDominates(u, root, s, c);
    }
    if Dominates(u, root, c) {
      DominantPrevails(u, root, s, c);
    }
  }

  /** At most one dominant field bears a name, so no JSON key is produced twice. */
  lemma OneFieldPerName(u: Universe, root: nat, c: Candidate, x: Candidate)
    requires Closed(u) && root < |u.structs| && Dominates(u, root, c) && Dominates(u, root, x) && c.name == x.name
    ensures c == x
  {
    assert c != x ==> Rivals(u, root, c, x) && Rivals(u, root, x, c);
  }

  // ----- the result, in declaration order

  predicate ByIndex(a: Candidate, b: Candidate) {
    PathLeq(a.index, b.index)
  }

  lemma IndexRanks()
    ensures Ranking(ByIndex)
  {
    forall a: Candidate, b: Candidate {
      PathLeqTotal(a.index, b.index);
    }
    forall a, b, c | ByIndex(a, b) && ByIndex(b, c) {
      PathLeqTransitive(a.index, b.index, c.index);
    }
  }

  /** The dominant fields, each once, strictly ordered by index path. */
  ghost predicate IsFieldList(u: Universe, root: nat, fields: seq<Candidate>)
    requires Closed(u) && root < |u.structs|
  {
    && (forall c :: c in fields <==> Dominates(u, root, c))
    && Ascending(fields)
  }

  lemma IndexTellsContenders(u: Universe, root: nat, c: Candidate, x: Candidate)
    requires Closed(u) && root < |u.structs| && Contender(u, root, c) && Contender(u, root, x) && c.index == x.index
    ensures c == x
  {
  }

  lemma SortedSurvivorsAreTheFields(u: Universe, root: nat, resolved: seq<Candidate>)
    requires Closed(u) && root < |u.structs| && DifferentNames(resolved)
    requires forall c :: c in resolved <==> Dominates(u, root, c)
    ensures IsFieldList(u, root, Sort(resolved, ByIndex))
  {
    var fields := Sort(resolved, ByIndex);
    IndexRanks();
    SortSorts(resolved, ByIndex);
    SortKeepsElements(resolved, ByIndex);
    forall i, j | 0 <= i < j < |fields|
      ensures PathLess(fields[i].index, fields[j].index)
    {
      assert ByIndex(fields[i], fields[j]);
      assert fields[i] in fields && fields[j] in fields;
      if fields[i].index == fields[j].index {
        IndexTellsContenders(u, root, fields[i], fields[j]);
      }
    }
  }

  /** There is one such list, so the order in which names were resolved cannot show. */
  lemma FieldListIsUnique(u: Universe, root: nat, a: seq<Candidate>, b: seq<Candidate>)
    requires Closed(u) && root < |u.structs| && IsFieldList(u, root, a) && IsFieldList(u, root, b)
    ensures a == b
  {
    AscendingIsUnique(a, b);
  }

  ghost predicate Ascending(s: seq<Candidate>) {
    forall i, j :: 0 <= i < j < |s| ==> PathLess(s[i].index, s[j].index)
  }

  /** The head of an ascending list is below everything else in it. */
  lemma HeadIsLeast(s: seq<Candidate>, c: Candidate)
    requires Ascending(s) && c in s
    ensures c == s[0] || PathLess(s[0].index, c.index)
    ensures c in s[1..] <==> c != s[0]
  {
  }

  lemma {:induction false} AscendingIsUnique(a: seq<Candidate>, b: seq<Candidate>)
    requires Ascending(a) && Ascending(b)
    requires forall c :: c in a <==> c in b
    ensures a == b
  {
    if a == [] {
      HasNone(b);
    } else {
      assert a[0] in a && a[0] in b && b[0] in b && b[0] in a;
      HeadIsLeast(a, b[0]);
      HeadIsLeast(b, a[0]);
      PathLeqTotal(a[0].index, b[0].index);
      forall c
        ensures c in a[1..] <==> c in b[1..]
      {
        if c in a {
          HeadIsLeast(a, c);
          HeadIsLeast(b, c);
        }
        assert c in a[1..] ==> c in a;
        assert c in b[1..] ==> c in b;
      }
      AscendingIsUnique(a[1..], b[1..]);
      assert a == [a[0]] + a[1..] && b == [b[0]] + b[1..];
    }
  }

  // ----- the entry point

  /** What the caller sees of a candidate. */
  datatype Field = Field(name: string, typ: Type, omitEmpty: bool)

  function Seen(c: Candidate): Field {
    Field(c.name, c.typ, c.omitEmpty)
  }

  datatype Refusal = NoType | NotAStruct | UnsupportedField

  /** Fatal is no answer: the process ran out of stack. */
  datatype Answer = Fatal | Returned(result: Result<seq<Field>, Refusal>)

  ghost predicate Describes(u: Universe, root: nat, fields: seq<Candidate>, seen: seq<Field>)
    requires Closed(u) && root < |u.structs|
  {
    && IsFieldList(u, root, fields)
    && |seen| == |fields|
    && forall i :: 0 <= i < |fields| ==> seen[i] == Seen(fields[i])
  }

  /** Every type JSON would see in the struct is clean, and these are its fields. */
  ghost predicate Answered(u: Universe, root: nat, seen: seq<Field>)
    requires Closed(u) && root < |u.structs|
  {
    && !HitsCycle(u, root) && !HitsUnsupported(u, root)
    && exists fields :: Describes(u, root, fields, seen)
  }

  /** What the answer for a struct says of its fields. */
  ghost predicate AnswersFor(u: Universe, root: nat, stack: nat, a: Answer)
    requires Closed(u) && root < |u.structs|
  {
    && (HitsCycle(u, root) ==> a.Fatal?)
    && (stack > |u.types| && a.Fatal? ==> HitsCycle(u, root))
    && (a.Fatal? || (if a.result.Err? then a.result.error.UnsupportedField? && HitsUnsupported(u, root)
                     else Answered(u, root, a.result.value)))
  }

  /** Conflicts resolved and survivors sorted, in whatever order the names are taken. */
  method ResolveAndSort(u: Universe, root: nat, candidates: seq<Candidate>) returns (seen: seq<Field>)
    requires Closed(u) && root < |u.structs| && ListsAll(u, root, candidates)
    ensures exists fields :: Describes(u, root, fields, seen)
  {
    var resolved := ResolveConflicts(candidates);
    forall c {
      SurvivorsDominate(u, root, candidates, c);
    }
    var fields := Sort(resolved, ByIndex);
    SortedSurvivorsAreTheFields(u, root, resolved);
    seen := [];
    for i := 0 to |fields|
      invariant |seen| == i && forall j :: 0 <= j < i ==> seen[j] == Seen(fields[j])
    {
      seen := seen + [Seen(fields[i])];
    }
    assert Describes(u, root, fields, seen);
  }

  /**
   The fields of a struct, or of a pointer to one. Whatever order the names are resolved in,
   the answer is the dominant fields in declaration order, unless a type check stops it.
   */
  method Fields(u: Universe, t: Option<Type>, stack: nat) returns (a: Answer)
    requires Closed(u) && (t.Some? && Deref(u, t.value).Struct? ==> Deref(u, t.value).id < |u.structs|)
    ensures a == Returned(Err(NoType)) <==> t.None?
    ensures a == Returned(Err(NotAStruct)) <==> t.Some? && !Deref(u, t.value).Struct?
    ensures t.Some? && Deref(u, t.value).Struct? ==> AnswersFor(u, Deref(u, t.value).id, stack, a)
  {
    if t.None? {
      return Returned(Err(NoType));
    }
    var target := Deref(u, t.value);
    if !target.Struct? {
      return Returned(Err(NotAStruct));
    }
    var found := CollectCandidates(u, target.id, stack);
    SearchReturnsExactlyWhen(u, target.id, stack, found);
    if found.Overflow? {
      return Fatal;
    }
    if found.Refused? {
      return Returned(Err(UnsupportedField));
    }
    var seen := ResolveAndSort(u, target.id, found.candidates);
    a := Returned(Ok(seen));
  }
}
