/**
 A weighted semaphore that grants in order of arrival. The class is the code, one method
 per critical section; the runs are every interleaving of callers that acquire, give up
 waiting and release.
 */
module Semaphore {
  import opened Sorting

  /** A blocked call; the ticket stands for its ready channel. */
  datatype Waiter = Waiter(ticket: nat, n: int)

  /** granted lists the calls granted so far, in the order they were. */
  datatype State = State(max: int, cur: int, waiters: seq<Waiter>, granted: seq<nat>)

  function Min(a: int, b: int): (r: int)
    ensures r <= a && r <= b && (r == a || r == b)
  {
    if a <= b then a else b
  }

  function Max(a: int, b: int): (r: int)
    ensures r >= a && r >= b && (r == a || r == b)
  {
    if a >= b then a else b
  }

  // ----- the critical sections

  /** Grants waiting calls from the front while they fit. */
  function Notified(s: State): State
    decreases |s.waiters|
  {
    if s.waiters == [] || s.cur + s.waiters[0].n > s.max then s
    else
      Notified(s.(cur := s.cur + s.waiters[0].n, waiters := s.waiters[1..],
                  granted := s.granted + [s.waiters[0].ticket]))
  }

  /** The first half of Acquire: taken at once, or queued. */
  function Entered(s: State, ticket: nat, n: int): State {
    var m := Min(n, s.max);
    if s.waiters == [] && s.cur + m <= s.max then s.(cur := s.cur + m, granted := s.granted + [ticket])
    else s.(waiters := s.waiters + [Waiter(ticket, m)])
  }

  function Removed(waiters: seq<Waiter>, ticket: nat): seq<Waiter> {
    if waiters == [] then []
    else if waiters[0].ticket == ticket then waiters[1..]
    else [waiters[0]] + Removed(waiters[1..], ticket)
  }

  /** The second half of Acquire, when the caller gives up: too late once granted. */
  function Withdrawn(s: State, ticket: nat): State {
    if ticket in s.granted then s else Notified(s.(waiters := Removed(s.waiters, ticket)))
  }

  function Released(s: State, n: int): State {
    if n <= 0 then s else Notified(s.(cur := Max(s.cur - Min(n, s.max), 0)))
  }

  class Weighted {
    var max: int
    var cur: int
    var waiters: seq<Waiter>
    var granted: seq<nat>

    function Now(): State
      reads this
    {
      State(max, cur, waiters, granted)
    }

    constructor (capacity: int)
      ensures Now() == State(if capacity <= 0 then 1 else capacity, 0, [], [])
    {
      max := if capacity <= 0 then 1 else capacity;
      cur, waiters, granted := 0, [], [];
    }

    method Notify()
      modifies this
      ensures Now() == Notified(old(Now()))
    {
      while |waiters| > 0
        invariant Notified(Now()) == Notified(old(Now()))
        decreases |waiters|
      {
        var w := waiters[0];
        if cur + w.n > max {
          break;
        }
        cur := cur + w.n;
        waiters := waiters[1..];
        granted := granted + [w.ticket];
      }
    }

    /** True if the call need not wait. */
    method Enter(ticket: nat, n: int) returns (done: bool)
      requires ticket !in granted
      modifies this
      ensures n <= 0 ==> done && Now() == old(Now())
      ensures n > 0 ==> Now() == Entered(old(Now()), ticket, n) && done == (ticket in granted)
    {
      if n <= 0 {
        return true;
      }
      var m := Min(n, max);
      if |waiters| == 0 && cur + m <= max {
        cur := cur + m;
        granted := granted + [ticket];
        return true;
      }
      waiters := waiters + [Waiter(ticket, m)];
      done := false;
    }

    /** True if the grant came first, so the caller holds it after all. */
    method Withdraw(ticket: nat) returns (held: bool)
      modifies this
      ensures held == (ticket in old(granted))
      ensures Now() == Withdrawn(old(Now()), ticket)
    {
      if ticket in granted {
        return true;
      }
      for i := 0 to |waiters|
        invariant Now() == old(Now())
        invariant Removed(waiters, ticket) == waiters[..i] + Removed(waiters[i..], ticket)
      {
        if waiters[i].ticket == ticket {
          assert waiters[i..][1..] == waiters[i + 1..];
          waiters := waiters[..i] + waiters[i + 1..];
          break;
        }
        assert waiters[i..][1..] == waiters[i + 1..];
      }
      assert waiters == Removed(old(waiters), ticket);
      Notify();
      held := false;
    }

    method Release(n: int)
      modifies this
      ensures Now() == Released(old(Now()), n)
    {
      if n <= 0 {
        return;
      }
      cur := cur - Min(n, max);
      if cur < 0 {
        cur := 0;
      }
      Notify();
    }
  }

  // ----- every interleaving

  /** One critical section of some caller; Stray releases what nobody may hold. */
  datatype Action =
    | Arrive(ticket: nat, n: int)
    | GiveUp(ticket: nat)
    | HandBack(ticket: nat)
    | Stray(n: int)

  /** The semaphore and what its callers did: who asked, for how much, and who is done. */
  datatype World = World(
    sem: State, arrived: seq<nat>, asked: map<nat, int>, cancelled: set<nat>, returned: set<nat>)

  predicate Allowed(w: World, a: Action) {
    match a
    case Arrive(t, n) => t !in w.asked && n > 0
    case GiveUp(t) => t in w.asked && t !in w.cancelled
    case HandBack(t) => t in w.sem.granted && t !in w.returned && t in w.asked
    case Stray(_) => true
  }

  function After(w: World, a: Action): World
    requires Allowed(w, a)
  {
    match a
    case Arrive(t, n) => w.(sem := Entered(w.sem, t, n), arrived := w.arrived + [t], asked := w.asked[t := n])
    case GiveUp(t) =>
      w.(sem := Withdrawn(w.sem, t), cancelled := if t in w.sem.granted then w.cancelled else w.cancelled + {t})
    case HandBack(t) => w.(sem := Released(w.sem, w.asked[t]), returned := w.returned + {t})
    case Stray(n) => w.(sem := Released(w.sem, n))
  }

  function Fresh(capacity: int): World {
    World(State(if capacity <= 0 then 1 else capacity, 0, [], []), [], map[], {}, {})
  }

  ghost predicate IsRun(run: seq<World>, actions: seq<Action>, capacity: int) {
    && |run| == |actions| + 1 && run[0] == Fresh(capacity)
    && forall i {:trigger actions[i]} :: 0 <= i < |actions| ==>
       Allowed(run[i], actions[i]) && run[i + 1] == After(run[i], actions[i])
  }

  function Tickets(waiters: seq<Waiter>): seq<nat> {
    if waiters == [] then [] else [waiters[0].ticket] + Tickets(waiters[1..])
  }

  function Except(s: seq<nat>, out: set<nat>): seq<nat> {
    if s == [] then [] else (if s[0] in out then [] else [s[0]]) + Except(s[1..], out)
  }

  /** What the calls granted and not yet returned hold between them. */
  function Held(granted: seq<nat>, returned: set<nat>, asked: map<nat, int>, max: int): int {
    if granted == [] then 0
    else
      Held(granted[1..], returned, asked, max)
      + (if granted[0] in asked && granted[0] !in returned then Min(asked[granted[0]], max) else 0)
  }

  // ----- what every interleaving keeps

  /** Nobody waits while the first in line would fit. */
  predicate HeadDoesNotFit(s: State) {
    s.waiters != [] ==> s.cur + s.waiters[0].n > s.max
  }

  ghost predicate Sound(s: State) {
    && 0 <= s.cur <= s.max && s.max >= 1
    && forall w :: w in s.waiters ==> 1 <= w.n <= s.max
  }

  /** Calls are granted in order of arrival, none lost and none granted twice. */
  ghost predicate InOrder(w: World) {
    && NoRepeats(w.arrived)
    && (forall t :: t in w.arrived <==> t in w.asked)
    && (forall t :: t in w.asked ==> w.asked[t] > 0)
    && (forall t :: t in w.cancelled ==> t in w.asked)
    && w.sem.granted + Tickets(w.sem.waiters) == Except(w.arrived, w.cancelled)
    && forall x :: x in w.sem.waiters ==> x.ticket in w.asked && x.n == Min(w.asked[x.ticket], w.sem.max)
  }

  ghost predicate Safe(w: World) {
    Sound(w.sem) && HeadDoesNotFit(w.sem) && InOrder(w)
  }

  lemma {:induction false} NotifiedIsSound(s: State)
    requires Sound(s)
    ensures Sound(Notified(s)) && HeadDoesNotFit(Notified(s)) && Notified(s).max == s.max
    ensures s.granted + Tickets(s.waiters) == Notified(s).granted + Tickets(Notified(s).waiters)
    ensures forall x :: x in Notified(s).waiters ==> x in s.waiters
    decreases |s.waiters|
  {
    if s.waiters != [] && s.cur + s.waiters[0].n <= s.max {
      var w := s.waiters[0];
      assert w in s.waiters;
      NotifiedIsSound(s.(cur := s.cur + w.n, waiters := s.waiters[1..], granted := s.granted + [w.ticket]));
      assert s.granted + Tickets(s.waiters) == s.granted + [w.ticket] + Tickets(s.waiters[1..]);
    }
  }

  lemma {:induction false} TicketsConcat(a: seq<Waiter>, b: seq<Waiter>)
    ensures Tickets(a + b) == Tickets(a) + Tickets(b)
  {
    if a == [] {
      assert a + b == b;
    } else {
      assert (a + b)[1..] == a[1..] + b;
      TicketsConcat(a[1..], b);
    }
  }

  lemma {:induction false} InTickets(waiters: seq<Waiter>, t: nat)
    ensures t in Tickets(waiters) <==> exists x :: x in waiters && x.ticket == t
  {
    if waiters != [] {
      InTickets(waiters[1..], t);
      assert waiters == [waiters[0]] + waiters[1..];
    }
  }

  lemma {:induction false} ExceptConcat(a: seq<nat>, b: seq<nat>, out: set<nat>)
    ensures Except(a + b, out) == Except(a, out) + Except(b, out)
  {
    if a == [] {
      assert a + b == b;
    } else {
      assert (a + b)[1..] == a[1..] + b;
      ExceptConcat(a[1..], b, out);
    }
  }

  lemma {:induction false} ExceptMore(s: seq<nat>, out: set<nat>, t: nat)
    ensures Except(s, out + {t}) == Except(Except(s, out), {t})
  {
    if s != [] {
      ExceptMore(s[1..], out, t);
      ExceptConcat(if s[0] in out then [] else [s[0]], Except(s[1..], out), {t});
    }
  }

  lemma {:induction false} ExceptAbsent(s: seq<nat>, t: nat)
    requires t !in s
    ensures Except(s, {t}) == s
  {
    if s != [] {
      ExceptAbsent(s[1..], t);
    }
  }

  lemma {:induction false} InExcept(s: seq<nat>, out: set<nat>, t: nat)
    ensures t in Except(s, out) <==> t in s && t !in out
  {
    if s != [] {
      InExcept(s[1..], out, t);
    }
  }

  lemma {:induction false} ExceptNoRepeats(s: seq<nat>, out: set<nat>)
    requires NoRepeats(s)
    ensures NoRepeats(Except(s, out))
  {
    if s != [] {
      ExceptNoRepeats(s[1..], out);
      InExcept(s[1..], out, s[0]);
    }
  }

  lemma TailNoRepeats(s: seq<nat>)
    requires NoRepeats(s) && s != []
    ensures NoRepeats(s[1..]) && s[0] !in s[1..]
  {
  }

  /** Removing a waiter removes its ticket and no other. */
  lemma {:induction false} RemovedTickets(waiters: seq<Waiter>, t: nat)
    requires NoRepeats(Tickets(waiters))
    ensures |Removed(waiters, t)| <= |waiters|
    ensures Tickets(Removed(waiters, t)) == Except(Tickets(waiters), {t})
    ensures forall x :: x in Removed(waiters, t) ==> x in waiters
  {
    if waiters != [] {
      var rest := Tickets(waiters[1..]);
      TailNoRepeats(Tickets(waiters));
      if waiters[0].ticket == t {
        ExceptAbsent(rest, t);
      } else {
        RemovedTickets(waiters[1..], t);
      }
    }
  }

  /** A newcomer goes to the end of the order, whether it is granted or queued. */
  lemma ArriveIsLast(w: World, t: nat, n: int)
    requires Safe(w) && Allowed(w, Arrive(t, n))
    ensures var next := After(w, Arrive(t, n));
            next.sem.granted + Tickets(next.sem.waiters) == Except(next.arrived, next.cancelled)
  {
    ExceptConcat(w.arrived, [t], w.cancelled);
    TicketsConcat(w.sem.waiters, [Waiter(t, Min(n, w.sem.max))]);
    assert Except([t], w.cancelled) == [t];
    assert Tickets([Waiter(t, Min(n, w.sem.max))]) == [t];
  }

  lemma AppendNoRepeats(s: seq<nat>, t: nat)
    requires NoRepeats(s) && t !in s
    ensures NoRepeats(s + [t])
  {
  }

  lemma ArriveIsSafe(w: World, t: nat, n: int)
    requires Safe(w) && Allowed(w, Arrive(t, n))
    ensures Safe(After(w, Arrive(t, n)))
  {
    ArriveIsLast(w, t, n);
    AppendNoRepeats(w.arrived, t);
  }

  lemma SplitNoRepeats(a: seq<nat>, b: seq<nat>)
    requires NoRepeats(a + b)
    ensures NoRepeats(a) && NoRepeats(b) && forall x :: x in a ==> x !in b
  {
    assert forall i :: 0 <= i < |a| ==> (a + b)[i] == a[i];
    assert forall j :: 0 <= j < |b| ==> (a + b)[|a| + j] == b[j];
  }

  lemma NoLongerWaiting(w: World, t: nat)
    requires Safe(w) && t in w.asked && t !in w.sem.granted
    ensures w.sem.granted + Tickets(Removed(w.sem.waiters, t)) == Except(w.arrived, w.cancelled + {t})
    ensures forall x :: x in Removed(w.sem.waiters, t) ==> x in w.sem.waiters
  {
    ExceptNoRepeats(w.arrived, w.cancelled);
    ExceptMore(w.arrived, w.cancelled, t);
    ExceptConcat(w.sem.granted, Tickets(w.sem.waiters), {t});
    ExceptAbsent(w.sem.granted, t);
    SplitNoRepeats(w.sem.granted, Tickets(w.sem.waiters));
    RemovedTickets(w.sem.waiters, t);
  }

  lemma GiveUpIsSafe(w: World, t: nat)
    requires Safe(w) && Allowed(w, GiveUp(t))
    ensures Safe(After(w, GiveUp(t)))
  {
    if t !in w.sem.granted {
      var less := w.sem.(waiters := Removed(w.sem.waiters, t));
      NoLongerWaiting(w, t);
      NotifiedIsSound(less);
    }
  }

  lemma ReleaseIsSafe(w: World, n: int)
    requires Safe(w)
    ensures Safe(w.(sem := Released(w.sem, n)))
  {
    if n > 0 {
      NotifiedIsSound(w.sem.(cur := Max(w.sem.cur - Min(n, w.sem.max), 0)));
    }
  }

  lemma StepIsSafe(w: World, a: Action)
    requires Safe(w) && Allowed(w, a)
    ensures Safe(After(w, a))
  {
    match a
    case Arrive(t, n) => ArriveIsSafe(w, t, n);
    case GiveUp(t) => GiveUpIsSafe(w, t);
    case HandBack(t) => ReleaseIsSafe(w, w.asked[t]);
    case Stray(n) => ReleaseIsSafe(w, n);
  }

  /**
   Whatever the callers do, stray releases included: capacity is never exceeded, nobody
   waits while the first in line fits, and calls are granted in order of arrival.
   */
  lemma {:induction false} RunIsSafe(run: seq<World>, actions: seq<Action>, capacity: int)
    requires IsRun(run, actions, capacity)
    ensures Safe(run[|actions|])
    decreases |actions|
  {
    if actions == [] {
      assert Except([], {}) == [];
    } else {
      var n := |actions| - 1;
      RunIsSafe(run[..n + 1], actions[..n], capacity);
      StepIsSafe(run[n], actions[n]);
    }
  }

  // ----- what is held

  /** Every release so far gave back a grant. */
  ghost predicate Balanced(w: World) {
    && w.sem.cur == Held(w.sem.granted, w.returned, w.asked, w.sem.max)
    && forall t :: t in w.returned ==> t in w.sem.granted
  }

  function Weight(t: nat, returned: set<nat>, asked: map<nat, int>, max: int): int {
    if t in asked && t !in returned then Min(asked[t], max) else 0
  }

  lemma {:induction false} HeldConcat(granted: seq<nat>, t: nat, returned: set<nat>, asked: map<nat, int>, max: int)
    ensures Held(granted + [t], returned, asked, max)
            == Held(granted, returned, asked, max) + Weight(t, returned, asked, max)
  {
    if granted == [] {
      assert granted + [t] == [t];
    } else {
      assert (granted + [t])[1..] == granted[1..] + [t];
      HeldConcat(granted[1..], t, returned, asked, max);
    }
  }

  lemma {:induction false} HeldIgnores(granted: seq<nat>, returned: set<nat>, asked: map<nat, int>, max: int, t: nat,
                                       n: int)
    requires t !in granted
    ensures Held(granted, returned, asked[t := n], max) == Held(granted, returned, asked, max)
    ensures Held(granted, returned + {t}, asked, max) == Held(granted, returned, asked, max)
  {
    if granted != [] {
      HeldIgnores(granted[1..], returned, asked, max, t, n);
    }
  }

  lemma {:induction false} HeldDrops(granted: seq<nat>, returned: set<nat>, asked: map<nat, int>, max: int, t: nat)
    requires NoRepeats(granted) && t in granted && t in asked && t !in returned
    ensures Held(granted, returned + {t}, asked, max) == Held(granted, returned, asked, max) - Min(asked[t], max)
  {
    TailNoRepeats(granted);
    if granted[0] == t {
      HeldIgnores(granted[1..], returned, asked, max, t, 0);
    } else {
      HeldDrops(granted[1..], returned, asked, max, t);
    }
  }

  lemma {:induction false} HeldIsNotNegative(granted: seq<nat>, returned: set<nat>, asked: map<nat, int>, max: int)
    requires max >= 1 && forall t :: t in asked ==> asked[t] > 0
    ensures Held(granted, returned, asked, max) >= 0
    ensures (forall t :: t in granted ==> t in returned) ==> Held(granted, returned, asked, max) == 0
  {
    if granted != [] {
      HeldIsNotNegative(granted[1..], returned, asked, max);
    }
  }

  ghost predicate Waiting(s: State, asked: map<nat, int>, returned: set<nat>) {
    forall x :: x in s.waiters ==> x.ticket in asked && x.ticket !in returned && x.n == Min(asked[x.ticket], s.max)
  }

  lemma {:induction false} NotifiedBalances(s: State, asked: map<nat, int>, returned: set<nat>)
    requires s.cur == Held(s.granted, returned, asked, s.max) && Waiting(s, asked, returned)
    ensures Notified(s).cur == Held(Notified(s).granted, returned, asked, s.max)
    ensures Notified(s).max == s.max
    ensures forall t :: t in s.granted ==> t in Notified(s).granted
    decreases |s.waiters|
  {
    if s.waiters != [] && s.cur + s.waiters[0].n <= s.max {
      var w := s.waiters[0];
      assert w in s.waiters;
      HeldConcat(s.granted, w.ticket, returned, asked, s.max);
      NotifiedBalances(s.(cur := s.cur + w.n, waiters := s.waiters[1..], granted := s.granted + [w.ticket]), asked,
                       returned);
    }
  }

  lemma WaitersAreWaiting(w: World)
    requires Safe(w) && forall t :: t in w.returned ==> t in w.sem.granted
    ensures Waiting(w.sem, w.asked, w.returned) && NoRepeats(w.sem.granted)
    ensures forall t :: t in w.sem.granted ==> t in w.asked
    ensures forall x :: x in w.sem.waiters ==> x.ticket !in w.sem.granted
  {
    ExceptNoRepeats(w.arrived, w.cancelled);
    SplitNoRepeats(w.sem.granted, Tickets(w.sem.waiters));
    forall t | t in w.sem.granted
      ensures t in w.asked
    {
      InExcept(w.arrived, w.cancelled, t);
      assert t in w.sem.granted + Tickets(w.sem.waiters);
    }
    forall x | x in w.sem.waiters
      ensures x.ticket !in w.sem.granted
    {
      InTickets(w.sem.waiters, x.ticket);
    }
  }

  lemma ArriveBalances(w: World, t: nat, n: int)
    requires Safe(w) && Balanced(w) && Allowed(w, Arrive(t, n))
    ensures Balanced(After(w, Arrive(t, n)))
  {
    WaitersAreWaiting(w);
    HeldIgnores(w.sem.granted, w.returned, w.asked, w.sem.max, t, n);
    HeldConcat(w.sem.granted, t, w.returned, w.asked[t := n], w.sem.max);
  }

  lemma GiveUpBalances(w: World, t: nat)
    requires Safe(w) && Balanced(w) && Allowed(w, GiveUp(t))
    ensures Balanced(After(w, GiveUp(t)))
  {
    if t !in w.sem.granted {
      WaitersAreWaiting(w);
      NoLongerWaiting(w, t);
      NotifiedBalances(w.sem.(waiters := Removed(w.sem.waiters, t)), w.asked, w.returned);
    }
  }

  lemma HandBackBalances(w: World, t: nat)
    requires Safe(w) && Balanced(w) && Allowed(w, HandBack(t))
    ensures Balanced(After(w, HandBack(t)))
  {
    var n := w.asked[t];
    WaitersAreWaiting(w);
    HeldDrops(w.sem.granted, w.returned, w.asked, w.sem.max, t);
    HeldIsNotNegative(w.sem.granted, w.returned + {t}, w.asked, w.sem.max);
    NotifiedBalances(w.sem.(cur := w.sem.cur - Min(n, w.sem.max)), w.asked, w.returned + {t});
  }

  /**
   When every release gives back a grant, what is taken is exactly what the live grants
   weigh, so once all are given back nobody is left waiting.
   */
  lemma {:induction false} RunIsBalanced(run: seq<World>, actions: seq<Action>, capacity: int)
    requires IsRun(run, actions, capacity) && forall i :: 0 <= i < |actions| ==> !actions[i].Stray?
    ensures Balanced(run[|actions|])
    decreases |actions|
  {
    if actions != [] {
      var n := |actions| - 1;
      RunIsBalanced(run[..n + 1], actions[..n], capacity);
      RunIsSafe(run[..n + 1], actions[..n], capacity);
      match actions[n]
      case Arrive(t, m) => ArriveBalances(run[n], t, m);
      case GiveUp(t) => GiveUpBalances(run[n], t);
      case HandBack(t) => HandBackBalances(run[n], t);
    }
  }

  lemma WaitersNeedHolders(s: State)
    requires Sound(s) && HeadDoesNotFit(s)
    ensures s.waiters != [] ==> s.cur > 0
  {
  }

  lemma NobodyIsStranded(run: seq<World>, actions: seq<Action>, capacity: int)
    requires IsRun(run, actions, capacity) && forall i :: 0 <= i < |actions| ==> !actions[i].Stray?
    ensures var w := run[|actions|];
            (forall t :: t in w.sem.granted ==> t in w.returned)
            ==> w.sem.cur == 0 && w.sem.waiters == [] && w.sem.granted == Except(w.arrived, w.cancelled)
  {
    var w := run[|actions|];
    RunIsSafe(run, actions, capacity);
    RunIsBalanced(run, actions, capacity);
    HeldIsNotNegative(w.sem.granted, w.returned, w.asked, w.sem.max);
    WaitersNeedHolders(w.sem);
  }

  // ----- what one call is given

  function Sum(waiters: seq<Waiter>): int {
    if waiters == [] then 0 else waiters[0].n + Sum(waiters[1..])
  }

  /** Waking grants a front of the queue: as long a one as fits, each for what it waits for. */
  lemma {:induction false} NotifiedMeans(s: State) returns (k: nat)
    ensures k <= |s.waiters|
    ensures var next := Notified(s);
            && next.waiters == s.waiters[k..] && next.granted == s.granted + Tickets(s.waiters[..k])
            && next.cur == s.cur + Sum(s.waiters[..k]) && next.max == s.max
    ensures forall j :: 0 < j <= k ==> s.cur + Sum(s.waiters[..j]) <= s.max
    ensures k < |s.waiters| ==> s.cur + Sum(s.waiters[..k]) + s.waiters[k].n > s.max
    decreases |s.waiters|
  {
    k := 0;
    if s.waiters != [] && s.cur + s.waiters[0].n <= s.max {
      var w, rest := s.waiters[0], s.waiters[1..];
      var before := NotifiedMeans(s.(cur := s.cur + w.n, waiters := rest, granted := s.granted + [w.ticket]));
      k := before + 1;
      forall j | 0 < j <= k
        ensures s.waiters[..j][1..] == rest[..j - 1]
      {
      }
      assert Sum(s.waiters[..1]) == w.n + Sum(rest[..0]);
    }
  }

  /**
   A call is granted on arrival exactly if nobody waits and it fits, one for more than
   everything counting as for all.
   */
  lemma ArrivalMeans(w: World, t: nat, n: int)
    requires Safe(w) && Allowed(w, Arrive(t, n))
    ensures var next, takes := After(w, Arrive(t, n)).sem, if n > w.sem.max then w.sem.max else n;
            if w.sem.waiters == [] && w.sem.cur + takes <= w.sem.max then
              && next.granted == w.sem.granted + [t] && next.waiters == [] && next.cur == w.sem.cur + takes
            else
              && next.granted == w.sem.granted && next.waiters == w.sem.waiters + [Waiter(t, takes)]
              && next.cur == w.sem.cur
  {
  }

  /**
   A release gives back what it says, all there is if it says more, and nothing if it says
   nothing; stray ones never leave less than nothing taken. What then fits is granted.
   */
  lemma ReleaseMeans(w: World, n: int) returns (k: nat)
    requires Safe(w)
    ensures var s, next := w.sem, After(w, Stray(n)).sem;
            var left := if n <= 0 then s.cur else if n >= s.cur then 0 else s.cur - n;
            && k <= |s.waiters| && next.waiters == s.waiters[k..]
            && next.granted == s.granted + Tickets(s.waiters[..k]) && next.cur == left + Sum(s.waiters[..k])
            && next.max == s.max
            && (k < |s.waiters| ==> next.cur + s.waiters[k].n > s.max)
    ensures forall t :: Allowed(w, HandBack(t)) && w.asked[t] == n ==>
              After(w, HandBack(t)).sem == After(w, Stray(n)).sem
  {
    k := 0;
    if n > 0 {
      k := NotifiedMeans(w.sem.(cur := Max(w.sem.cur - Min(n, w.sem.max), 0)));
    }
  }

  /**
   A call that gives up while it waits leaves the queue, and is never granted; one already
   granted keeps its grant.
   */
  lemma GivingUpMeans(w: World, t: nat)
    requires Safe(w) && Allowed(w, GiveUp(t))
    ensures var next := After(w, GiveUp(t));
            if t in w.sem.granted then next == w
            else t in next.cancelled && t !in next.sem.granted && t !in Tickets(next.sem.waiters)
  {
    if t !in w.sem.granted {
      GiveUpIsSafe(w, t);
      var next := After(w, GiveUp(t));
      InExcept(next.arrived, next.cancelled, t);
      assert t !in next.sem.granted + Tickets(next.sem.waiters);
      assert forall x :: x in next.sem.granted ==> x in next.sem.granted + Tickets(next.sem.waiters);
    }
  }

  /** The capacity is what was asked for, one if that is less, and stays so. */
  lemma {:induction false} CapacityStays(run: seq<World>, actions: seq<Action>, capacity: int)
    requires IsRun(run, actions, capacity)
    ensures run[|actions|].sem.max == Max(capacity, 1)
    decreases |actions|
  {
    if actions != [] {
      var n := |actions| - 1;
      CapacityStays(run[..n + 1], actions[..n], capacity);
      RunIsSafe(run[..n + 1], actions[..n], capacity);
      StepIsSafe(run[n], actions[n]);
      KeepsCapacity(run[n], actions[n]);
    }
  }

  lemma KeepsCapacity(w: World, a: Action)
    requires Safe(w) && Allowed(w, a)
    ensures After(w, a).sem.max == w.sem.max
  {
    match a
    case Arrive(t, n) =>
    case GiveUp(t) =>
      if t !in w.sem.granted {
        var k := NotifiedMeans(w.sem.(waiters := Removed(w.sem.waiters, t)));
      }
    case HandBack(t) =>
      var k := ReleaseMeans(w, w.asked[t]);
      assert After(w, a).sem == After(w, Stray(w.asked[t])).sem;
    case Stray(n) => var k := ReleaseMeans(w, n);
  }
}
