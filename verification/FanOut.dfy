/**
 The fan-out publisher: a closed flag and a group of publications in flight, over an
 ordered list of backends. Any number of callers publish; any of them may close.
 */
module FanOut {

  // ----- one publication, and one shutdown

  function Upto(k: nat): seq<nat> {
    if k == 0 then [] else Upto(k - 1) + [k - 1]
  }

  /** Every backend is tried, whatever the ones before it answered. */
  method StoreInOrder(answers: seq<bool>) returns (calls: seq<nat>, failed: bool)
    ensures calls == Upto(|answers|)
    ensures failed <==> exists i :: 0 <= i < |answers| && !answers[i]
  {
    calls, failed := [], false;
    for i := 0 to |answers|
      invariant calls == Upto(i)
      invariant failed <==> exists k :: 0 <= k < i && !answers[k]
    {
      calls := calls + [i];
      if !answers[i] {
        failed := true;
      }
    }
  }

  /** What a backend sees. */
  datatype Entry = Stored(id: nat, backend: nat) | Closed(backend: nat)

  /** Backends n-1 down to left, in the order they are shut. */
  function Shutdown(n: nat, left: nat): seq<Entry>
    requires left <= n
    decreases n - left
  {
    if left == n then [] else Shutdown(n, left + 1) + [Closed(left)]
  }

  method CloseInReverse(answers: seq<bool>) returns (calls: seq<Entry>, failed: bool)
    ensures calls == Shutdown(|answers|, 0)
    ensures failed <==> exists i :: 0 <= i < |answers| && !answers[i]
  {
    calls, failed := [], false;
    var i := |answers|;
    while i > 0
      invariant 0 <= i <= |answers| && calls == Shutdown(|answers|, i)
      invariant failed <==> exists k :: i <= k < |answers| && !answers[k]
    {
      i := i - 1;
      calls := calls + [Closed(i)];
      if !answers[i] {
        failed := true;
      }
    }
  }

  /** Backend i is the i-th to store. */
  lemma {:induction false} StoresInOrder(k: nat)
    ensures |Upto(k)| == k && forall i :: 0 <= i < k ==> Upto(k)[i] == i
  {
    if k > 0 {
      StoresInOrder(k - 1);
    }
  }

  /** The last backend is shut first, and the first last. */
  lemma {:induction false} ShutsInReverse(n: nat, left: nat)
    requires left <= n
    ensures |Shutdown(n, left)| == n - left
    ensures forall i :: 0 <= i < n - left ==> Shutdown(n, left)[i] == Closed(n - 1 - i)
    decreases n - left
  {
    if left < n {
      ShutsInReverse(n, left + 1);
    }
  }

  /** The closed flag and the in-flight group, under one lock. */
  datatype Group = Group(closed: bool, inFlight: int)

  function Admitted(g: Group): Group {
    if g.closed then g else g.(inFlight := g.inFlight + 1)
  }

  function Finished(g: Group): Group {
    g.(inFlight := g.inFlight - 1)
  }

  function Shut(g: Group): Group {
    g.(closed := true)
  }

  class Gate {
    var closed: bool
    var inFlight: int

    function Now(): Group
      reads this
    {
      Group(closed, inFlight)
    }

    constructor ()
      ensures Now() == Group(false, 0)
    {
      closed, inFlight := false, 0;
    }

    /** The locked section of Publish: refused once closed, otherwise counted in. */
    method Admit() returns (ok: bool)
      modifies this
      ensures ok == !old(closed) && Now() == Admitted(old(Now()))
      ensures closed == old(closed) && inFlight == old(inFlight) + (if ok then 1 else 0)
    {
      if closed {
        return false;
      }
      inFlight := inFlight + 1;
      ok := true;
    }

    method Done()
      modifies this
      ensures Now() == Finished(old(Now()))
    {
      inFlight := inFlight - 1;
    }

    /** The locked section of Close: only the first caller goes on to wait. */
    method Close() returns (first: bool)
      modifies this
      ensures first == !old(closed) && Now() == Shut(old(Now()))
    {
      if closed {
        return false;
      }
      closed := true;
      first := true;
    }

    /** One whole publication: refused, given up while stamping, or stored everywhere. */
    method Publish(stamps: bool, answers: seq<bool>) returns (ok: bool, calls: seq<nat>)
      modifies this
      ensures calls == if old(closed) || !stamps then [] else Upto(|answers|)
      ensures ok <==> !old(closed) && stamps && forall i :: 0 <= i < |answers| ==> answers[i]
      ensures Now() == old(Now())
    {
      var admitted := Admit();
      if !admitted {
        return false, [];
      }
      if !stamps {
        Done();
        return false, [];
      }
      var failed;
      calls, failed := StoreInOrder(answers);
      Done();
      ok := !failed;
    }
  }

  // ----- callers, interleaved

  /** A publication under way: stamping, or about to store in the backend at index next. */
  datatype Call = Wrapping | Storing(next: nat)

  datatype Closer = Open | Waiting | Closing(left: nat)

  /**
   log lists what the backends saw; done and refused say how publications ended. closing
   holds the Close calls under way, and whether each found the publisher open; returned
   those that returned.
   */
  datatype World = World(
    n: nat, group: Group, calls: map<nat, Call>, closer: Closer, log: seq<Entry>,
    done: set<nat>, refused: set<nat>, closing: map<nat, bool>, returned: set<nat>)

  datatype Step =
    | Publish(id: nat)
    | Wrap(id: nat, ok: bool)
    | Store(id: nat)
    | Leave(id: nat)
    | Close(id: nat)
    | PassWait
    | CloseNext
    | Return(id: nat)

  predicate Enabled(w: World, s: Step) {
    match s
    case Publish(id) => id !in w.calls && id !in w.done && id !in w.refused
    case Wrap(id, _) => id in w.calls && w.calls[id].Wrapping?
    case Store(id) => id in w.calls && w.calls[id].Storing? && w.calls[id].next < w.n
    case Leave(id) => id in w.calls && w.calls[id].Storing? && w.calls[id].next >= w.n
    case Close(id) => id !in w.closing && id !in w.returned
    case PassWait => w.closer.Waiting? && w.group.inFlight == 0
    case CloseNext => w.closer.Closing? && w.closer.left > 0
    case Return(id) => id in w.closing && (w.closing[id] ==> w.closer == Closing(0))
  }

  function After(w: World, s: Step): World
    requires Enabled(w, s)
  {
    match s
    case Publish(id) =>
      if w.group.closed then w.(refused := w.refused + {id})
      else w.(group := Admitted(w.group), calls := w.calls[id := Wrapping])
    case Wrap(id, ok) =>
      if ok then w.(calls := w.calls[id := Storing(0)])
      else w.(group := Finished(w.group), calls := w.calls - {id}, refused := w.refused + {id})
    case Store(id) =>
      var next := w.calls[id].next;
      w.(calls := w.calls[id := Storing(next + 1)], log := w.log + [Stored(id, next)])
    case Leave(id) => w.(group := Finished(w.group), calls := w.calls - {id}, done := w.done + {id})
    case Close(id) =>
      if w.group.closed then w.(closing := w.closing[id := false])
      else w.(group := Shut(w.group), closer := Waiting, closing := w.closing[id := true])
    case PassWait => w.(closer := Closing(w.n))
    case CloseNext => w.(closer := Closing(w.closer.left - 1), log := w.log + [Closed(w.closer.left - 1)])
    case Return(id) => w.(closing := w.closing - {id}, returned := w.returned + {id})
  }

  function Begins(n: nat): World {
    World(n, Group(false, 0), map[], Open, [], {}, {}, map[], {})
  }

  ghost predicate IsRun(run: seq<World>, steps: seq<Step>, n: nat) {
    && n > 0 && |run| == |steps| + 1 && run[0] == Begins(n)
    && forall i {:trigger steps[i]} :: 0 <= i < |steps| ==>
       Enabled(run[i], steps[i]) && run[i + 1] == After(run[i], steps[i])
  }

  // ----- what every interleaving keeps

  /** The backends the log shows one publication reaching, in order. */
  function ReachedBy(log: seq<Entry>, id: nat): seq<nat> {
    if log == [] then []
    else
      var last := log[|log| - 1];
      ReachedBy(log[..|log| - 1], id) + (if last.Stored? && last.id == id then [last.backend] else [])
  }

  function Progress(w: World, id: nat): nat {
    if id in w.done then w.n
    else if id in w.calls && w.calls[id].Storing? then w.calls[id].next
    else 0
  }

  /** The group counts the calls under way; none is left once Close is past its wait. */
  ghost predicate GroupInv(w: World) {
    && w.group.inFlight == |w.calls| && w.group.closed == !w.closer.Open?
    && (w.closer.Closing? ==> w.calls == map[] && w.closer.left <= w.n)
  }

  ghost predicate CallsInv(w: World) {
    && (forall id :: id in w.calls ==> id !in w.done && id !in w.refused)
    && w.done !! w.refused
    && (forall id :: id in w.calls && w.calls[id].Storing? ==> w.calls[id].next <= w.n)
  }

  ghost predicate LogInv(w: World) {
    forall id: nat :: ReachedBy(w.log, id) == Upto(Progress(w, id))
  }

  ghost predicate ShutInv(w: World) {
    && (w.closer.Closing? ==> w.closer.left <= w.n && ShutInOrder(w.log, w.n, w.closer.left))
    && (!w.closer.Closing? ==> forall k :: 0 <= k < |w.log| ==> w.log[k].Stored?)
  }

  ghost predicate Inv(w: World) {
    GroupInv(w) && CallsInv(w) && LogInv(w) && ShutInv(w)
  }

  /** First the stores, then the shutdowns, in reverse order. */
  ghost predicate ShutInOrder(log: seq<Entry>, n: nat, left: nat)
    requires left <= n
  {
    var shut := Shutdown(n, left);
    && |shut| <= |log| && log[|log| - |shut|..] == shut
    && forall k :: 0 <= k < |log| - |shut| ==> log[k].Stored?
  }

  lemma Logged(log: seq<Entry>, e: Entry, id: nat)
    ensures ReachedBy(log + [e], id) == ReachedBy(log, id) + (if e.Stored? && e.id == id then [e.backend] else [])
  {
  }

  lemma StepKeepsGroup(w: World, s: Step)
    requires GroupInv(w) && Enabled(w, s)
    ensures GroupInv(After(w, s))
  {
  }

  lemma StepKeepsCalls(w: World, s: Step)
    requires CallsInv(w) && Enabled(w, s)
    ensures CallsInv(After(w, s))
  {
  }

  lemma {:induction false} StepKeepsLogOf(w: World, s: Step, id: nat)
    requires GroupInv(w) && CallsInv(w) && Enabled(w, s) && ReachedBy(w.log, id) == Upto(Progress(w, id))
    ensures ReachedBy(After(w, s).log, id) == Upto(Progress(After(w, s), id))
  {
    match s
    case Store(c) => Logged(w.log, Stored(c, w.calls[c].next), id);
    case CloseNext => Logged(w.log, Closed(w.closer.left - 1), id);
    case _ =>
  }

  lemma StepKeepsLog(w: World, s: Step)
    requires GroupInv(w) && CallsInv(w) && LogInv(w) && Enabled(w, s)
    ensures LogInv(After(w, s))
  {
    forall id: nat
      ensures ReachedBy(After(w, s).log, id) == Upto(Progress(After(w, s), id))
    {
      StepKeepsLogOf(w, s, id);
    }
  }

  lemma ShutNext(log: seq<Entry>, n: nat, left: nat)
    requires 0 < left <= n && ShutInOrder(log, n, left)
    ensures ShutInOrder(log + [Closed(left - 1)], n, left - 1)
  {
  }

  lemma StepKeepsShut(w: World, s: Step)
    requires GroupInv(w) && ShutInv(w) && Enabled(w, s)
    ensures ShutInv(After(w, s))
  {
    if s.CloseNext? {
      ShutNext(w.log, w.n, w.closer.left);
    }
  }

  lemma StepKeepsInv(w: World, s: Step)
    requires Inv(w) && Enabled(w, s)
    ensures Inv(After(w, s))
  {
    StepKeepsGroup(w, s);
    StepKeepsCalls(w, s);
    StepKeepsLog(w, s);
    StepKeepsShut(w, s);
  }

  lemma {:induction false} RunKeepsInv(run: seq<World>, steps: seq<Step>, n: nat, i: nat)
    requires IsRun(run, steps, n) && i < |run|
    ensures Inv(run[i]) && run[i].n == n
  {
    if i == 0 {
      BeginningKeepsInv(run[i], n);
    } else {
      RunKeepsInv(run, steps, n, i - 1);
      StepKeepsInv(run[i - 1], steps[i - 1]);
    }
  }

  lemma BeginningKeepsInv(w: World, n: nat)
    requires w == Begins(n)
    ensures Inv(w)
  {
  }

  lemma ThroughStays(w: World, s: Step)
    requires GroupInv(w) && Enabled(w, s)
    ensures w.closer.Closing? ==> After(w, s).closer.Closing?
    ensures w.closer == Closing(0) ==> After(w, s).closer == Closing(0)
  {
  }

  lemma {:induction false} ClosingIsFinal(run: seq<World>, steps: seq<Step>, n: nat, i: nat, j: nat)
    requires IsRun(run, steps, n) && i <= j < |run| && run[i].closer.Closing?
    ensures run[j].closer.Closing?
  {
    if i < j {
      ClosingIsFinal(run, steps, n, i, j - 1);
      RunKeepsInv(run, steps, n, j - 1);
      ThroughStays(run[j - 1], steps[j - 1]);
    }
  }

  /**
   Once Close is past its wait, no backend is storing or will ever store again, whoever
   publishes; the log ends with the shutdowns in reverse order and has none before.
   */
  lemma NoStoreOnceClosing(run: seq<World>, steps: seq<Step>, n: nat, i: nat, j: nat)
    requires IsRun(run, steps, n) && i <= j < |steps| && run[i].closer.Closing?
    ensures run[j].closer.Closing? && run[j].calls == map[] && !steps[j].Store?
    ensures run[j].closer.left <= n && ShutInOrder(run[j].log, n, run[j].closer.left)
  {
    ClosingIsFinal(run, steps, n, i, j);
    RunKeepsInv(run, steps, n, j);
  }

  /** An accepted publication reaches every backend once, in order; a refused one reaches none. */
  lemma AllBackendsOrNone(run: seq<World>, steps: seq<Step>, n: nat, i: nat, id: nat)
    requires IsRun(run, steps, n) && i < |run|
    ensures id in run[i].done ==> ReachedBy(run[i].log, id) == Upto(n)
    ensures id in run[i].refused ==> ReachedBy(run[i].log, id) == []
  {
    RunKeepsInv(run, steps, n, i);
    assert ReachedBy(run[i].log, id) == Upto(Progress(run[i], id));
  }

  // ----- what the return of a Close says

  ghost predicate AllShut(w: World) {
    forall b :: 0 <= b < w.n ==> Closed(b) in w.log
  }

  lemma {:induction false} InShutdown(n: nat, left: nat, b: nat)
    requires left <= n
    ensures Closed(b) in Shutdown(n, left) <==> left <= b < n
    decreases n - left
  {
    if left < n {
      InShutdown(n, left + 1, b);
    }
  }

  /** The log tells that the first Close is through, and nothing short of that does. */
  lemma ShutExactly(w: World)
    requires Inv(w) && w.n > 0
    ensures AllShut(w) <==> w.closer == Closing(0)
  {
    if w.closer.Closing? {
      var shut := Shutdown(w.n, w.closer.left);
      var before := w.log[..|w.log| - |shut|];
      assert w.log == before + shut;
      forall b: nat
        ensures Closed(b) in w.log <==> w.closer.left <= b < w.n
      {
        InShutdown(w.n, w.closer.left, b);
        assert Closed(b) !in before;
      }
      assert Closed(0) in w.log <==> w.closer.left == 0;
    } else {
      assert Closed(0) !in w.log;
    }
  }

  ghost predicate CloseInv(w: World) {
    forall id :: id in w.closing ==> id !in w.returned
  }

  /** A Close under way keeps what it found, and no later call takes its place. */
  lemma {:induction false} FindingStays(run: seq<World>, steps: seq<Step>, n: nat, i: nat, j: nat, id: nat)
    requires IsRun(run, steps, n) && i < j < |run| && steps[i] == Close(id)
    ensures id in run[j].returned || (id in run[j].closing && run[j].closing[id] == !run[i].group.closed)
    decreases j
  {
    assert run[j] == After(run[j - 1], steps[j - 1]);
    if j > i + 1 {
      FindingStays(run, steps, n, i, j - 1, id);
    }
  }

  lemma {:induction false} ReturnedIsOver(run: seq<World>, steps: seq<Step>, n: nat, i: nat)
    requires IsRun(run, steps, n) && i < |run|
    ensures CloseInv(run[i])
  {
    if i > 0 {
      ReturnedIsOver(run, steps, n, i - 1);
      assert run[i] == After(run[i - 1], steps[i - 1]);
    }
  }

  /**
   What a caller knows when its Close returns: every backend is shut if and only if it found
   the publisher open, or the call that did is through by then. Then the shutdowns stand
   at the end of the log in reverse order, and no store ever follows.
   */
  lemma CloseReturnMeans(run: seq<World>, steps: seq<Step>, n: nat, i: nat, j: nat, id: nat)
    requires IsRun(run, steps, n) && i < j < |steps| && steps[i] == Close(id) && steps[j] == Return(id)
    ensures AllShut(run[j]) <==> !run[i].group.closed || run[j].closer == Closing(0)
    ensures AllShut(run[j]) ==> ShutInOrder(run[j].log, n, 0) && forall k :: j <= k < |steps| ==> !steps[k].Store?
  {
    RunKeepsInv(run, steps, n, j);
    ShutExactly(run[j]);
    FindingStays(run, steps, n, i, j, id);
    ReturnedIsOver(run, steps, n, j);
    if AllShut(run[j]) {
      forall k | j <= k < |steps|
        ensures !steps[k].Store?
      {
        NoStoreOnceClosing(run, steps, n, j, k);
      }
    }
  }

  lemma {:induction false} ThroughIsFinal(run: seq<World>, steps: seq<Step>, n: nat, i: nat, j: nat)
    requires IsRun(run, steps, n) && i <= j < |run| && run[i].closer == Closing(0)
    ensures run[j].closer == Closing(0)
  {
    if i < j {
      ThroughIsFinal(run, steps, n, i, j - 1);
      RunKeepsInv(run, steps, n, j - 1);
      ThroughStays(run[j - 1], steps[j - 1]);
    }
  }

  /** However the run goes on, a Close made now returns only once every backend is shut. */
  ghost predicate Assured(run: seq<World>, steps: seq<Step>, n: nat, id: nat) {
    forall run', steps' ::
      IsRun(run', steps', n) && run <= run' && steps <= steps' && |steps| + 1 < |steps'|
      && steps'[|steps|] == Close(id) && steps'[|steps'| - 1] == Return(id)
      ==> AllShut(run'[|steps'| - 1])
  }

  /** A caller that finds the publisher open is assured of shutdown; any later one only if it is over already. */
  lemma AssuredExactlyWhen(run: seq<World>, steps: seq<Step>, n: nat, id: nat)
    requires IsRun(run, steps, n) && Enabled(run[|steps|], Close(id))
    ensures Assured(run, steps, n, id) <==> !run[|steps|].group.closed || run[|steps|].closer == Closing(0)
  {
    var i := |steps|;
    if !run[i].group.closed || run[i].closer == Closing(0) {
      forall run', steps' | IsRun(run', steps', n) && run <= run' && steps <= steps' && i + 1 < |steps'|
                            && steps'[i] == Close(id) && steps'[|steps'| - 1] == Return(id)
        ensures AllShut(run'[|steps'| - 1])
      {
        assert run'[i] == run[i];
        if run[i].closer == Closing(0) {
          ThroughIsFinal(run', steps', n, i, |steps'| - 1);
        }
        CloseReturnMeans(run', steps', n, i, |steps'| - 1, id);
      }
    } else {
      ReturnsAtOnce(run, steps, n, id);
    }
  }

  lemma ReturnsAtOnce(run: seq<World>, steps: seq<Step>, n: nat, id: nat)
    requires IsRun(run, steps, n) && Enabled(run[|steps|], Close(id))
    requires run[|steps|].group.closed && run[|steps|].closer != Closing(0)
    ensures !Assured(run, steps, n, id)
  {
    var i := |steps|;
    var w := After(run[i], Close(id));
    var longer, more := run + [w, After(w, Return(id))], steps + [Close(id), Return(id)];
    assert IsRun(longer, more, n);
    CloseReturnMeans(longer, more, n, i, i + 1, id);
    assert run <= longer && steps <= more && more[|more| - 1] == Return(id);
    assert !AllShut(longer[|more| - 1]);
  }

  // ----- how every publication ends

  /** Every publication that was made is under way, done or refused; done exactly if it left after its last backend. */
  lemma {:induction false} AccountedFor(run: seq<World>, steps: seq<Step>, n: nat, i: nat, id: nat)
    requires IsRun(run, steps, n) && i < |run|
    ensures var w, past := run[i], steps[..i];
            && (id in w.calls || id in w.done || id in w.refused <==> Publish(id) in past)
            && (id in w.done <==> Leave(id) in past)
  {
    if i > 0 {
      AccountedFor(run, steps, n, i - 1, id);
      assert steps[..i] == steps[..i - 1] + [steps[i - 1]];
      assert Enabled(run[i - 1], steps[i - 1]) && run[i] == After(run[i - 1], steps[i - 1]);
    }
  }

  lemma RefusedByStep(w: World, s: Step, id: nat)
    requires Enabled(w, s)
    ensures id in After(w, s).refused
            <==> id in w.refused || s == Wrap(id, false) || (s == Publish(id) && w.group.closed)
  {
  }

  ghost predicate CameLate(run: seq<World>, steps: seq<Step>, id: nat, j: nat)
    requires |run| == |steps| + 1 && j < |steps|
  {
    steps[j] == Publish(id) && run[j].group.closed
  }

  /** One is refused exactly if it came once the publisher was closed, or could not be stamped. */
  lemma {:induction false} RefusedExactlyWhen(run: seq<World>, steps: seq<Step>, n: nat, i: nat, id: nat)
    requires IsRun(run, steps, n) && i < |run|
    ensures id in run[i].refused
            <==> || Wrap(id, false) in steps[..i]
                 || exists j: nat :: j < i && CameLate(run, steps, id, j)
  {
    if i > 0 {
      RefusedExactlyWhen(run, steps, n, i - 1, id);
      RefusedByStep(run[i - 1], steps[i - 1], id);
      assert steps[..i] == steps[..i - 1] + [steps[i - 1]];
      assert run[i] == After(run[i - 1], steps[i - 1]);
      assert CameLate(run, steps, id, i - 1) <==> steps[i - 1] == Publish(id) && run[i - 1].group.closed;
    }
  }

  /** A publication stores only once stamped, and the shutdowns begin exactly with the end of the wait. */
  lemma {:induction false} BeginsExactlyWhen(run: seq<World>, steps: seq<Step>, n: nat, i: nat, id: nat)
    requires IsRun(run, steps, n) && i < |run|
    ensures var w, past := run[i], steps[..i];
            && (id in w.calls ==> (w.calls[id].Storing? <==> Wrap(id, true) in past))
            && (Wrap(id, true) in past ==> Publish(id) in past)
            && (w.closer.Closing? <==> PassWait in past)
  {
    if i > 0 {
      BeginsExactlyWhen(run, steps, n, i - 1, id);
      AccountedFor(run, steps, n, i - 1, id);
      RunKeepsInv(run, steps, n, i - 1);
      assert steps[..i] == steps[..i - 1] + [steps[i - 1]];
      assert Enabled(run[i - 1], steps[i - 1]) && run[i] == After(run[i - 1], steps[i - 1]);
    }
  }

  lemma OneMore(run: seq<World>, steps: seq<Step>, n: nat, s: Step) returns (run': seq<World>, steps': seq<Step>)
    requires IsRun(run, steps, n) && Enabled(run[|steps|], s)
    ensures IsRun(run', steps', n) && run'[|steps'|] == After(run[|steps|], s)
  {
    run', steps' := run + [After(run[|steps|], s)], steps + [s];
  }

  /** A publication under way when Close comes is stored, and only then is the backend shut. */
  lemma OnePublisherRuns() returns (run: seq<World>, steps: seq<Step>)
    ensures IsRun(run, steps, 1) && 7 in run[|steps|].done && 1 in run[|steps|].returned
    ensures run[|steps|].log == [Stored(7, 0), Closed(0)]
  {
    run, steps := [Begins(1)], [];
    run, steps := OneMore(run, steps, 1, Publish(7));
    run, steps := OneMore(run, steps, 1, Wrap(7, true));
    run, steps := OneMore(run, steps, 1, Close(1));
    run, steps := OneMore(run, steps, 1, Store(7));
    run, steps := OneMore(run, steps, 1, Leave(7));
    run, steps := OneMore(run, steps, 1, PassWait);
    run, steps := OneMore(run, steps, 1, CloseNext);
    run, steps := OneMore(run, steps, 1, Return(1));
  }
}
