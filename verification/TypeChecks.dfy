/**
 When the check of a field's type returns. It follows element and key types and stops at
 structs and leaves only, so a type that leads back to itself without a struct in between
 exhausts any stack; and it looks at a map's element only once the key has passed.
 */
module TypeChecks {
  import opened Options
  import opened Sorting
  import opened TypeGraph
  import opened FieldSearch
  import C = Chains

  /** With enough room the check returns content. */
  ghost predicate Accepted(u: Universe, t: Type) {
    exists stack :: Verdict(u, t, stack) == Some(true)
  }

  /** b is what a is made of. */
  predicate MadeOf(u: Universe, a: Type, b: Type) {
    match NodeOf(u, a)
    case Pointer(e) => b == e
    case Slice(e) => b == e
    case Array(e) => b == e
    case Map(k, e) => b == k || b == e
    case Scalar(_) => false
    case Unsupported(_) => false
  }

  function PartsOf(u: Universe): (Type, Type) -> bool {
    (a: Type, b: Type) => MadeOf(u, a, b)
  }

  function UnsupportedIn(u: Universe): Type -> bool {
    (t: Type) => NodeOf(u, t).Unsupported?
  }

  /** Nothing the type is made of, through any keys and elements, is unsupported or made of itself. */
  ghost predicate Sound(u: Universe, t: Type) {
    !C.Loops(PartsOf(u), UnsupportedIn(u), t)
  }

  /** Checking a calls the check of b: of a map's element only if the key is sound. */
  ghost predicate WalksInto(u: Universe, a: Type, b: Type) {
    match NodeOf(u, a)
    case Pointer(e) => b == e
    case Slice(e) => b == e
    case Array(e) => b == e
    case Map(k, e) => b == k || (b == e && Sound(u, k))
    case Scalar(_) => false
    case Unsupported(_) => false
  }

  ghost predicate Walk(u: Universe, path: seq<Type>) {
    path != [] && forall i :: 0 <= i < |path| - 1 ==> WalksInto(u, path[i], path[i + 1])
  }

  /** The calls nested in the check of t meet some type twice. */
  ghost predicate EntersCycle(u: Universe, t: Type) {
    exists path, i, j :: Walk(u, path) && path[0] == t && 0 <= i < j < |path| && path[i] == path[j]
  }

  /** The calls nested in the check of t meet a kind JSON cannot carry. */
  ghost predicate EntersUnsupported(u: Universe, t: Type) {
    exists path :: Walk(u, path) && path[0] == t && NodeOf(u, path[|path| - 1]).Unsupported?
  }

  // ----- more room never changes an answer

  lemma {:induction false} VerdictStays(u: Universe, t: Type, n: nat, m: nat)
    requires n <= m && Verdict(u, t, n).Some?
    ensures Verdict(u, t, m) == Verdict(u, t, n)
    decreases n
  {
    match NodeOf(u, t)
    case Pointer(e) => VerdictStays(u, e, n - 1, m - 1);
    case Slice(e) => VerdictStays(u, e, n - 1, m - 1);
    case Array(e) => VerdictStays(u, e, n - 1, m - 1);
    case Map(k, e) =>
      VerdictStays(u, k, n - 1, m - 1);
      if Verdict(u, k, n - 1) == Some(true) {
        VerdictStays(u, e, n - 1, m - 1);
      }
    case Scalar(_) =>
    case Unsupported(_) =>
  }

  lemma AcceptedIsTrue(u: Universe, t: Type, n: nat)
    requires Accepted(u, t) && Verdict(u, t, n).Some?
    ensures Verdict(u, t, n) == Some(true)
  {
    var m: nat :| Verdict(u, t, m) == Some(true);
    if n <= m {
      VerdictStays(u, t, n, m);
    } else {
      VerdictStays(u, t, m, n);
    }
  }

  // ----- a type passes exactly if it is sound

  lemma PartPasses(u: Universe, a: Type, b: Type, n: nat)
    requires MadeOf(u, a, b) && Verdict(u, a, n) == Some(true)
    ensures n > 0 && Verdict(u, b, n - 1) == Some(true)
  {
  }

  lemma {:induction false} PartsPass(u: Universe, path: seq<Type>, i: nat, j: nat, n: nat)
    requires C.Chain(PartsOf(u), path) && i <= j < |path| && Verdict(u, path[i], n) == Some(true)
    ensures n >= j - i && Verdict(u, path[j], n - (j - i)) == Some(true)
    decreases j
  {
    if i < j {
      PartsPass(u, path, i, j - 1, n);
      assert C.CallsNext(PartsOf(u), path, j - 1);
      PartPasses(u, path[j - 1], path[j], n - (j - 1 - i));
    }
  }

  lemma {:induction false} NothingPassesTwice(u: Universe, path: seq<Type>, i: nat, j: nat, n: nat)
    requires C.Chain(PartsOf(u), path) && i < j < |path| && path[i] == path[j]
    ensures Verdict(u, path[i], n) != Some(true)
    decreases n
  {
    if Verdict(u, path[i], n) == Some(true) {
      PartsPass(u, path, i, j, n);
      NothingPassesTwice(u, path, i, j, n - (j - i));
    }
  }

  lemma AcceptedIsSound(u: Universe, t: Type)
    requires Accepted(u, t)
    ensures Sound(u, t)
  {
    var n: nat :| Verdict(u, t, n) == Some(true);
    if !Sound(u, t) {
      var path := C.LoopedBy(PartsOf(u), UnsupportedIn(u), t);
      if C.Repeats(path) {
        var i, j :| 0 <= i < j < |path| && path[i] == path[j];
        PartsPass(u, path, 0, i, n);
        NothingPassesTwice(u, path, i, j, n - i);
      } else {
        PartsPass(u, path, 0, |path| - 1, n);
      }
    }
  }

  /** What does not pass has a chain of parts as long as there was room, or to what is unsupported. */
  lemma {:induction false} NotPassing(u: Universe, t: Type, n: nat) returns (path: seq<Type>)
    requires Verdict(u, t, n) != Some(true)
    ensures C.Chain(PartsOf(u), path) && path[0] == t
    ensures |path| == n + 1 || UnsupportedIn(u)(path[|path| - 1])
    decreases n
  {
    if n == 0 || NodeOf(u, t).Unsupported? {
      path := [t];
    } else {
      var part;
      match NodeOf(u, t) {
        case Pointer(e) => part := e;
        case Slice(e) => part := e;
        case Array(e) => part := e;
        case Map(k, e) => part := if Verdict(u, k, n - 1) == Some(true) then e else k;
      }
      var rest := NotPassing(u, part, n - 1);
      C.CallerInFront(PartsOf(u), t, rest);
      path := [t] + rest;
    }
  }

  lemma ManyPartsRepeat(u: Universe, path: seq<Type>)
    requires C.Chain(PartsOf(u), path) && |path| > |u.types| + 1
    ensures C.Repeats(path)
  {
    var n := |path| - 1;
    forall i | 0 <= i < n
      ensures path[i].Other? && path[i].id < |u.types|
    {
      assert C.CallsNext(PartsOf(u), path, i);
      assert MadeOf(u, path[i], path[i + 1]);
    }
    var ids := seq(n, i requires 0 <= i < n => path[i].id);
    Pigeonhole(ids, |u.types|);
    var i, j :| 0 <= i < j < |ids| && ids[i] == ids[j];
    assert path[i] == path[j];
  }

  /** A type passes, given room enough, if and only if it is sound. */
  lemma AcceptedExactlyWhenSound(u: Universe, t: Type)
    ensures Accepted(u, t) <==> Sound(u, t)
  {
    if Accepted(u, t) {
      AcceptedIsSound(u, t);
    } else {
      var n := |u.types| + 1;
      var path := NotPassing(u, t, n);
      if |path| == n + 1 {
        ManyPartsRepeat(u, path);
      }
    }
  }

  // ----- a cycle exhausts every stack

  lemma CallReturns(u: Universe, a: Type, b: Type, n: nat)
    requires WalksInto(u, a, b) && Verdict(u, a, n).Some?
    ensures n > 0 && Verdict(u, b, n - 1).Some?
  {
    match NodeOf(u, a)
    case Map(k, e) =>
      if b != k {
        AcceptedExactlyWhenSound(u, k);
        AcceptedIsTrue(u, k, n - 1);
      }
    case _ =>
  }

  lemma {:induction false} CallsReturn(u: Universe, path: seq<Type>, i: nat, j: nat, n: nat)
    requires Walk(u, path) && i <= j < |path| && Verdict(u, path[i], n).Some?
    ensures n >= j - i && Verdict(u, path[j], n - (j - i)).Some?
    decreases j
  {
    if i < j {
      CallsReturn(u, path, i, j - 1, n);
      CallReturns(u, path[j - 1], path[j], n - (j - 1 - i));
    }
  }

  lemma {:induction false} LoopNeverReturns(u: Universe, path: seq<Type>, i: nat, j: nat, n: nat)
    requires Walk(u, path) && i < j < |path| && path[i] == path[j]
    ensures Verdict(u, path[i], n).None?
    decreases n
  {
    if Verdict(u, path[i], n).Some? {
      CallsReturn(u, path, i, j, n);
      LoopNeverReturns(u, path, i, j, n - (j - i));
    }
  }

  lemma CycleNeverReturns(u: Universe, t: Type, n: nat)
    requires EntersCycle(u, t)
    ensures Verdict(u, t, n).None?
  {
    var path, i, j :| Walk(u, path) && path[0] == t && 0 <= i < j < |path| && path[i] == path[j];
    if Verdict(u, t, n).Some? {
      CallsReturn(u, path, 0, i, n);
      LoopNeverReturns(u, path, i, j, n - i);
    }
  }

  // ----- and nothing else does

  ghost predicate AllOther(u: Universe, path: seq<Type>) {
    forall i :: 0 <= i < |path| ==> path[i].Other? && path[i].id < |u.types|
  }

  lemma NextCall(u: Universe, t: Type, n: nat) returns (b: Type)
    requires n > 0 && Verdict(u, t, n).None?
    ensures WalksInto(u, t, b) && Verdict(u, b, n - 1).None? && t.Other? && t.id < |u.types|
  {
    match NodeOf(u, t)
    case Pointer(e) => b := e;
    case Slice(e) => b := e;
    case Array(e) => b := e;
    case Map(k, e) =>
      AcceptedExactlyWhenSound(u, k);
      b := if Verdict(u, k, n - 1).None? then k else e;
  }

  /** A check that runs out of room leaves as many nested calls behind as there was room for. */
  lemma {:induction false} NestedCalls(u: Universe, t: Type, n: nat) returns (path: seq<Type>)
    requires Verdict(u, t, n).None?
    ensures |path| == n + 1 && path[0] == t && Walk(u, path) && AllOther(u, path[..n])
    decreases n
  {
    if n == 0 {
      path := [t];
    } else {
      var b := NextCall(u, t, n);
      var rest := NestedCalls(u, b, n - 1);
      path := [t] + rest;
      assert path[..n] == [t] + rest[..n - 1];
    }
  }

  lemma {:induction false} BelowSize(n: nat)
    ensures |Below(n)| == n
  {
    if n > 0 {
      BelowSize(n - 1);
    }
  }

  lemma SmallerSet(a: set<nat>, b: set<nat>)
    requires a <= b
    ensures |a| <= |b|
  {
    assert b == a + (b - a);
  }

  lemma Pigeonhole(s: seq<nat>, m: nat)
    requires |s| > m && forall i :: 0 <= i < |s| ==> s[i] < m
    ensures !NoRepeats(s)
  {
    if NoRepeats(s) {
      var elements := set x | x in s;
      NoRepeatsCardinality(s, elements);
      BelowSize(m);
      SmallerSet(elements, Below(m));
    }
  }

  lemma LongWalkRepeats(u: Universe, path: seq<Type>, n: nat)
    requires Walk(u, path) && |path| == n + 1 && n > |u.types| && AllOther(u, path[..n])
    ensures EntersCycle(u, path[0])
  {
    var ids := seq(n, i requires 0 <= i < n => path[..n][i].id);
    Pigeonhole(ids, |u.types|);
    var i, j :| 0 <= i < j < |ids| && ids[i] == ids[j];
    assert path[..n][i] == path[i] && path[..n][j] == path[j];
    assert path[i] == path[j];
  }

  /**
   Given a call for each type and one more, the check fails to return only for a cycle, and
   then however much it is given.
   */
  lemma EndlessExactlyWhen(u: Universe, t: Type, stack: nat)
    ensures EntersCycle(u, t) ==> Verdict(u, t, stack).None?
    ensures stack > |u.types| ==> (Verdict(u, t, stack).None? <==> EntersCycle(u, t))
  {
    if EntersCycle(u, t) {
      CycleNeverReturns(u, t, stack);
    }
    if stack > |u.types| && Verdict(u, t, stack).None? {
      var path := NestedCalls(u, t, stack);
      LongWalkRepeats(u, path, stack);
    }
  }

  // ----- when it returns an error

  lemma RefusalPassesUp(u: Universe, a: Type, b: Type, n: nat) returns (m: nat)
    requires WalksInto(u, a, b) && Verdict(u, b, n) == Some(false)
    ensures Verdict(u, a, m) == Some(false)
  {
    m := n + 1;
    match NodeOf(u, a)
    case Map(k, e) =>
      AcceptedExactlyWhenSound(u, k);
      if b != k || Accepted(u, k) {
        var j: nat :| Verdict(u, k, j) == Some(true);
        m := j + n + 1;
        VerdictStays(u, k, j, m - 1);
        VerdictStays(u, b, n, m - 1);
      }
    case _ =>
  }

  lemma {:induction false} RefusalIsReached(u: Universe, path: seq<Type>, i: nat) returns (m: nat)
    requires Walk(u, path) && i < |path| && NodeOf(u, path[|path| - 1]).Unsupported?
    ensures Verdict(u, path[i], m) == Some(false)
    decreases |path| - i
  {
    if i == |path| - 1 {
      m := 1;
    } else {
      var n := RefusalIsReached(u, path, i + 1);
      m := RefusalPassesUp(u, path[i], path[i + 1], n);
    }
  }

  lemma {:induction false} RefusalHasASource(u: Universe, t: Type, n: nat) returns (path: seq<Type>)
    requires Verdict(u, t, n) == Some(false)
    ensures Walk(u, path) && path[0] == t && NodeOf(u, path[|path| - 1]).Unsupported?
    decreases n
  {
    var rest: seq<Type> := [];
    match NodeOf(u, t) {
      case Unsupported(_) =>
      case Pointer(e) => rest := RefusalHasASource(u, e, n - 1);
      case Slice(e) => rest := RefusalHasASource(u, e, n - 1);
      case Array(e) => rest := RefusalHasASource(u, e, n - 1);
      case Map(k, e) =>
        AcceptedExactlyWhenSound(u, k);
        if Verdict(u, k, n - 1) == Some(true) {
          rest := RefusalHasASource(u, e, n - 1);
        } else {
          rest := RefusalHasASource(u, k, n - 1);
        }
    }
    path := [t] + rest;
  }

  /** It returns an error exactly if a call meets an unsupported kind, whatever the other types are. */
  lemma RefusedExactlyWhen(u: Universe, t: Type, stack: nat)
    ensures Verdict(u, t, stack) == Some(false) ==> EntersUnsupported(u, t)
    ensures stack > |u.types| ==> (Verdict(u, t, stack) == Some(false) <==> EntersUnsupported(u, t))
  {
    if Verdict(u, t, stack) == Some(false) {
      var path := RefusalHasASource(u, t, stack);
    }
    if stack > |u.types| && EntersUnsupported(u, t) {
      var path :| Walk(u, path) && path[0] == t && NodeOf(u, path[|path| - 1]).Unsupported?;
      var m := RefusalIsReached(u, path, 0);
      EndlessExactlyWhen(u, t, stack);
      EndlessExactlyWhen(u, t, m);
      if m <= stack {
        VerdictStays(u, t, m, stack);
      } else {
        VerdictStays(u, t, stack, m);
      }
    }
  }

  // ----- the whole search

  ghost predicate Clean(u: Universe, t: Type) {
    !EntersCycle(u, t) && !EntersUnsupported(u, t)
  }

  /** Before this contender, in the order of the search, every type is clean. */
  ghost predicate CleanBefore(u: Universe, root: nat, c: Candidate)
    requires Closed(u) && root < |u.structs|
  {
    forall x :: Contender(u, root, x) && Sooner(x.index, c.index) ==> Clean(u, x.typ)
  }

  ghost predicate HitsCycle(u: Universe, root: nat)
    requires Closed(u) && root < |u.structs|
  {
    exists c :: Contender(u, root, c) && EntersCycle(u, c.typ) && CleanBefore(u, root, c)
  }

  ghost predicate HitsUnsupported(u: Universe, root: nat)
    requires Closed(u) && root < |u.structs|
  {
    exists c :: Contender(u, root, c) && EntersUnsupported(u, c.typ) && CleanBefore(u, root, c)
  }

  lemma CleanPasses(u: Universe, t: Type, stack: nat)
    requires stack > |u.types|
    ensures Clean(u, t) <==> Verdict(u, t, stack) == Some(true)
  {
    EndlessExactlyWhen(u, t, stack);
    RefusedExactlyWhen(u, t, stack);
    TwoVerdicts(Verdict(u, t, stack));
  }

  lemma TroubleIsUnclean(u: Universe, root: nat, stack: nat, c: Candidate)
    requires Closed(u) && root < |u.structs| && stack > |u.types| && Contender(u, root, c)
    ensures FirstTrouble(u, root, stack, c) <==> !Clean(u, c.typ) && CleanBefore(u, root, c)
  {
    CleanPasses(u, c.typ, stack);
    forall x: Candidate {
      CleanPasses(u, x.typ, stack);
    }
  }

  lemma StopsOnCycle(u: Universe, root: nat, stack: nat)
    requires Closed(u) && root < |u.structs| && stack > |u.types|
    ensures StopsWith(u, root, stack, None) <==> HitsCycle(u, root)
    ensures StopsWith(u, root, stack, Some(false)) <==> HitsUnsupported(u, root)
  {
    forall c | Contender(u, root, c)
      ensures FirstTrouble(u, root, stack, c) <==> !Clean(u, c.typ) && CleanBefore(u, root, c)
      ensures Verdict(u, c.typ, stack).None? <==> EntersCycle(u, c.typ)
      ensures Verdict(u, c.typ, stack) == Some(false) <==> EntersUnsupported(u, c.typ)
    {
      TroubleIsUnclean(u, root, stack, c);
      EndlessExactlyWhen(u, c.typ, stack);
      RefusedExactlyWhen(u, c.typ, stack);
    }
  }

  lemma SoonerIsTotal(p: seq<nat>, q: seq<nat>)
    ensures p == q || Sooner(p, q) || Sooner(q, p)
  {
    PathLeqTotal(p, q);
  }

  lemma RefusalComesAfter(u: Universe, root: nat, stack: nat, c: Candidate, x: Candidate)
    requires Closed(u) && root < |u.structs| && Contender(u, root, c) && Verdict(u, c.typ, stack).None?
    requires FirstTrouble(u, root, stack, x) && Verdict(u, x.typ, stack) == Some(false)
    ensures Sooner(x.index, c.index)
  {
    SoonerIsTotal(c.index, x.index);
  }

  /** A cycle met first is never got past, however much room there is. */
  lemma NoRoomIsEnough(u: Universe, root: nat, stack: nat)
    requires Closed(u) && root < |u.structs| && HitsCycle(u, root)
    ensures !AllPass(u, root, stack) && !StopsWith(u, root, stack, Some(false))
  {
    var c :| Contender(u, root, c) && EntersCycle(u, c.typ) && CleanBefore(u, root, c);
    CycleNeverReturns(u, c.typ, stack);
    forall x | FirstTrouble(u, root, stack, x)
      ensures Verdict(u, x.typ, stack) != Some(false)
    {
      if Verdict(u, x.typ, stack) == Some(false) {
        RefusalComesAfter(u, root, stack, c, x);
        RefusedExactlyWhen(u, x.typ, stack);
      }
    }
  }

  lemma PassIsClean(u: Universe, t: Type, stack: nat)
    requires Verdict(u, t, stack) == Some(true)
    ensures Clean(u, t)
  {
    var room := if stack > |u.types| then stack else |u.types| + 1;
    VerdictStays(u, t, stack, room);
    CleanPasses(u, t, room);
  }

  /** An answer that comes back is right, however little room there was. */
  lemma AnswersAreRight(u: Universe, root: nat, stack: nat)
    requires Closed(u) && root < |u.structs|
    ensures StopsWith(u, root, stack, Some(false)) ==> HitsUnsupported(u, root)
    ensures AllPass(u, root, stack) ==> forall c :: Contender(u, root, c) ==> Clean(u, c.typ)
  {
    forall x: Candidate | Verdict(u, x.typ, stack) == Some(true) {
      PassIsClean(u, x.typ, stack);
    }
    if StopsWith(u, root, stack, Some(false)) {
      var c :| FirstTrouble(u, root, stack, c) && Verdict(u, c.typ, stack) == Some(false);
      RefusedExactlyWhen(u, c.typ, stack);
      assert CleanBefore(u, root, c);
    }
  }

  /**
   The search returns unless the first contender whose type is not clean leads into a cycle
   without a struct: then no stack is enough. Given a call for each type and one more it
   returns in every other case: with an error exactly if the first such contender meets an
   unsupported kind, and with its list exactly if there is no such contender.
   */
  lemma SearchReturnsExactlyWhen(u: Universe, root: nat, stack: nat, r: Outcome)
    requires Closed(u) && root < |u.structs| && Settles(u, root, stack, r)
    ensures HitsCycle(u, root) ==> r.Overflow?
    ensures r.Refused? ==> HitsUnsupported(u, root)
    ensures r.Listed? ==> forall c :: Contender(u, root, c) ==> Clean(u, c.typ)
    ensures stack > |u.types| ==> (r.Overflow? <==> HitsCycle(u, root)) && (r.Refused? <==> HitsUnsupported(u, root))
  {
    AnswersAreRight(u, root, stack);
    if HitsCycle(u, root) {
      NoRoomIsEnough(u, root, stack);
    }
    if stack > |u.types| {
      StopsOnCycle(u, root, stack);
    }
  }

  // ----- a slice of itself

  /** type T []T, and a struct with one field X of it. */
  const Selfish: Universe :=
    Universe([[StructField("X", true, false, Other(0), false, "", false)]], [Slice(Other(0))])

  const Itself := Candidate("X", Other(0), false, [0], 0, false)

  lemma ItselfIsContender()
    ensures Closed(Selfish) && Contender(Selfish, 0, Itself)
  {
    assert [0][..0] == [];
    assert TypeAt(Selfish, 0, []) == Some(0);
    assert forall q: seq<nat> :: PathLeq([], q);
  }

  lemma ItselfEntersACycle()
    ensures EntersCycle(Selfish, Other(0))
  {
    var path := [Other(0), Other(0)];
    assert Walk(Selfish, path) && path[0] == path[1];
  }

  lemma NothingIsSooner(p: seq<nat>)
    requires p != []
    ensures !Sooner(p, [0])
  {
  }

  /** Its check exhausts any stack, so the search for the fields of that struct never returns. */
  lemma SliceOfItselfNeverReturns(stack: nat, r: Outcome)
    requires Closed(Selfish) && Settles(Selfish, 0, stack, r)
    ensures r.Overflow?
  {
    ItselfIsContender();
    ItselfEntersACycle();
    forall x | Contender(Selfish, 0, x)
      ensures !Sooner(x.index, Itself.index)
    {
      NothingIsSooner(x.index);
    }
    SearchReturnsExactlyWhen(Selfish, 0, stack, r);
  }
}
