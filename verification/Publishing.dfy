/**
 Workers and sender of one publisher, interleaved. A worker's Publish is two steps: the
 locked section, then the token. The sender's loop waits for a token, takes the map under
 the lock, and then sends and counts one observation at a time. Any number of workers run
 at once, the connection refuses what it likes, and the publisher may be stopped between
 batches.
 */
module Publishing {
  import opened Sorting
  import opened HealthView
  import opened HealthFabric

  datatype Sender =
    | Idle
    | Woken
    | Sending(rest: seq<Observation>)
    | Counting(ok: bool, rest: seq<Observation>)
    | Exited

  /** One attempt to hand an observation to the connection. */
  datatype Attempt = Attempt(o: Observation, ok: bool)

  /**
   wake is the one-token channel; posting counts workers between the lock and the token.
   accepted and tried are histories: what Publish took, and what the sender attempted.
   */
  datatype Fabric = Fabric(
    ledger: Ledger, wake: bool, posting: nat, sender: Sender,
    accepted: seq<Observation>, tried: seq<Attempt>)

  const QUIET := Fabric(EMPTY, false, 0, Idle, [], [])

  datatype Step =
    | Accept(o: Observation)
    | PostToken
    | TakeToken
    | TakeBatch(batch: seq<Observation>)
    | Send(ok: bool)
    | CountOne
    | FinishBatch
    | Exit

  function Rest(s: Sender): seq<Observation> {
    if s.Sending? || s.Counting? then s.rest else []
  }

  ghost predicate Enabled(f: Fabric, s: Step) {
    match s
    case Accept(_) => true
    case PostToken => f.posting > 0
    case TakeToken => f.sender.Idle? && f.wake
    case TakeBatch(batch) => f.sender.Woken? && Arranges(batch, f.ledger.pending)
    case Send(_) => f.sender.Sending? && f.sender.rest != []
    case CountOne => f.sender.Counting?
    case FinishBatch => f.sender.Sending? && f.sender.rest == []
    case Exit => f.sender.Idle?
  }

  function After(id: Identity, f: Fabric, s: Step): Fabric
    requires Enabled(f, s)
  {
    match s
    case Accept(o) =>
      f.(ledger := Accepted(id, f.ledger, o), posting := f.posting + 1,
         accepted := f.accepted + [Stamped(id, o, f.ledger.sequence + 1)])
    case PostToken => f.(posting := f.posting - 1, wake := true)
    case TakeToken => f.(wake := false, sender := Woken)
    case TakeBatch(batch) => f.(ledger := f.ledger.(pending := map[]), sender := Sending(batch))
    case Send(ok) =>
      f.(tried := f.tried + [Attempt(f.sender.rest[0], ok)], sender := Counting(ok, f.sender.rest[1..]))
    case CountOne =>
      var l := f.ledger;
      f.(ledger := if f.sender.ok then l.(sent := l.sent + 1) else l.(failed := l.failed + 1),
         sender := Sending(f.sender.rest))
    case FinishBatch => f.(sender := Idle)
    case Exit => f.(sender := Exited)
  }

  ghost predicate IsRun(id: Identity, states: seq<Fabric>, steps: seq<Step>) {
    && |states| == |steps| + 1 && states[0] == QUIET
    && forall i {:trigger steps[i]} :: 0 <= i < |steps| ==>
       Enabled(states[i], steps[i]) && states[i + 1] == After(id, states[i], steps[i])
  }

  // ----- what every step keeps

  /** Stamps: the k-th observation accepted carries sequence k + 1 and this process's identity. */
  ghost predicate StampInv(id: Identity, f: Fabric) {
    && |f.accepted| == f.ledger.sequence
    && forall k :: 0 <= k < |f.accepted| ==>
         && f.accepted[k].sequence == k + 1 && f.accepted[k].epoch == id.epoch
         && f.accepted[k].role == id.role && f.accepted[k].unit.machine == id.machine
  }

  function Reached(tried: seq<Attempt>): nat {
    if tried == [] then 0
    else Reached(tried[..|tried| - 1]) + (if tried[|tried| - 1].ok then 1 else 0)
  }

  /**
   Every accepted observation is in exactly one place, and the two outcome counters say
   how many attempts ended each way.
   */
  ghost predicate CountInv(f: Fabric) {
    var l := f.ledger;
    && |f.accepted| == l.sent + l.failed + l.superseded + |l.pending| + |Rest(f.sender)|
                       + (if f.sender.Counting? then 1 else 0)
    && Reached(f.tried) == l.sent + (if f.sender.Counting? && f.sender.ok then 1 else 0)
    && |f.tried| - Reached(f.tried) == l.failed + (if f.sender.Counting? && !f.sender.ok then 1 else 0)
  }

  /** Pending work is never forgotten: a token, a worker about to post one, or a sender about to take it. */
  ghost predicate WakeInv(f: Fabric) {
    f.ledger.pending != map[] ==> f.wake || f.posting > 0 || f.sender.Woken? || f.sender.Exited?
  }

  ghost predicate WasAccepted(accepted: seq<Observation>, o: Observation) {
    1 <= o.sequence <= |accepted| && accepted[o.sequence - 1] == o
  }

  ghost predicate Before(a: Observation, b: Observation) {
    a.unit.service == b.unit.service ==> a.sequence < b.sequence
  }

  ghost predicate FromAccepted(accepted: seq<Observation>, tried: seq<Attempt>, rest: seq<Observation>,
                               pending: map<string, Observation>)
  {
    && (forall i :: 0 <= i < |tried| ==> WasAccepted(accepted, tried[i].o))
    && (forall i :: 0 <= i < |rest| ==> WasAccepted(accepted, rest[i]))
    && (forall s :: s in pending ==> WasAccepted(accepted, pending[s]))
  }

  /** Per service: what was tried precedes what is being sent, which precedes what is pending. */
  ghost predicate InOrder(tried: seq<Attempt>, rest: seq<Observation>, pending: map<string, Observation>) {
    && (forall i, j :: 0 <= i < j < |tried| ==> Before(tried[i].o, tried[j].o))
    && (forall i, j :: 0 <= i < |tried| && 0 <= j < |rest| ==> Before(tried[i].o, rest[j]))
    && (forall i, j :: 0 <= i < j < |rest| ==> Before(rest[i], rest[j]))
    && (forall i, s :: 0 <= i < |tried| && s in pending ==> Before(tried[i].o, pending[s]))
    && (forall i, s :: 0 <= i < |rest| && s in pending ==> Before(rest[i], pending[s]))
  }

  ghost predicate OrderInv(f: Fabric) {
    && Keyed(f.ledger.pending)
    && FromAccepted(f.accepted, f.tried, Rest(f.sender), f.ledger.pending)
    && InOrder(f.tried, Rest(f.sender), f.ledger.pending)
  }

  /** The k-th accepted observation is the latest of its service. */
  ghost predicate Latest(f: Fabric, k: nat) {
    k < |f.accepted| && forall j :: k < j < |f.accepted| ==> f.accepted[j].unit.service != f.accepted[k].unit.service
  }

  ghost predicate Waits(f: Fabric, o: Observation) {
    (o.unit.service in f.ledger.pending && f.ledger.pending[o.unit.service] == o) || o in Rest(f.sender)
  }

  ghost predicate Tried(f: Fabric, o: Observation) {
    exists i :: 0 <= i < |f.tried| && f.tried[i].o == o
  }

  /** The latest observation of a service is never lost before it is tried. */
  ghost predicate LatestInv(f: Fabric) {
    forall k: nat :: Latest(f, k) ==> Waits(f, f.accepted[k]) || Tried(f, f.accepted[k])
  }

  ghost predicate Inv(id: Identity, f: Fabric) {
    StampInv(id, f) && CountInv(f) && WakeInv(f) && OrderInv(f) && LatestInv(f)
  }

  function Services(batch: seq<Observation>): seq<string> {
    seq(|batch|, i requires 0 <= i < |batch| => batch[i].unit.service)
  }

  lemma ArrangedCount(batch: seq<Observation>, pending: map<string, Observation>)
    requires Arranges(batch, pending)
    ensures |batch| == |pending|
  {
    var names := Services(batch);
    forall s
      ensures s in names <==> s in pending.Keys
    {
      if s in pending {
        var i :| 0 <= i < |batch| && batch[i].unit.service == s;
        assert names[i] == s;
      }
    }
    NoRepeatsCardinality(names, pending.Keys);
  }

  lemma StepKeepsStamps(id: Identity, f: Fabric, s: Step)
    requires StampInv(id, f) && Enabled(f, s)
    ensures StampInv(id, After(id, f, s))
  {
  }

  lemma StepKeepsCount(id: Identity, f: Fabric, s: Step)
    requires CountInv(f) && Enabled(f, s)
    ensures CountInv(After(id, f, s))
  {
    if s.TakeBatch? {
      ArrangedCount(s.batch, f.ledger.pending);
    }
    if s.Accept? {
      var service := s.o.unit.service;
      var pending' := Accepted(id, f.ledger, s.o).pending;
      assert pending'.Keys == f.ledger.pending.Keys + {service};
    }
    if s.Send? {
      assert After(id, f, s).tried[..|f.tried|] == f.tried;
    }
  }

  lemma StepKeepsWake(id: Identity, f: Fabric, s: Step)
    requires WakeInv(f) && Enabled(f, s)
    ensures WakeInv(After(id, f, s))
  {
  }

  lemma AcceptKeepsOrder(id: Identity, f: Fabric, o: Observation)
    requires StampInv(id, f) && OrderInv(f)
    ensures OrderInv(After(id, f, Accept(o)))
  {
    var stamped := Stamped(id, o, f.ledger.sequence + 1);
    var accepted := f.accepted + [stamped];
    var pending := f.ledger.pending[stamped.unit.service := stamped];
    assert forall x :: WasAccepted(f.accepted, x) ==> WasAccepted(accepted, x) && Before(x, stamped);
    assert WasAccepted(accepted, stamped);
    assert FromAccepted(accepted, f.tried, Rest(f.sender), pending);
    assert InOrder(f.tried, Rest(f.sender), pending);
  }

  lemma {:induction false} TakeKeepsOrder(id: Identity, f: Fabric, batch: seq<Observation>)
    requires OrderInv(f) && Enabled(f, TakeBatch(batch))
    ensures OrderInv(After(id, f, TakeBatch(batch)))
  {
    assert forall i :: 0 <= i < |batch| ==> batch[i] == f.ledger.pending[batch[i].unit.service];
    assert FromAccepted(f.accepted, f.tried, batch, map[]);
    assert InOrder(f.tried, batch, map[]);
  }

  lemma SendKeepsOrder(id: Identity, f: Fabric, ok: bool)
    requires OrderInv(f) && Enabled(f, Send(ok))
    ensures OrderInv(After(id, f, Send(ok)))
  {
    var rest, tried := f.sender.rest, f.tried + [Attempt(f.sender.rest[0], ok)];
    assert FromAccepted(f.accepted, tried, rest[1..], f.ledger.pending);
    assert InOrder(tried, rest[1..], f.ledger.pending);
  }

  lemma StepKeepsOrder(id: Identity, f: Fabric, s: Step)
    requires StampInv(id, f) && OrderInv(f) && Enabled(f, s)
    ensures OrderInv(After(id, f, s))
  {
    match s
    case Accept(o) => AcceptKeepsOrder(id, f, o);
    case TakeBatch(batch) => TakeKeepsOrder(id, f, batch);
    case Send(ok) => SendKeepsOrder(id, f, ok);
    case _ =>
  }

  /** Where an observation was, it is after the step, or it is one place further on. */
  lemma StepKeepsPlace(id: Identity, f: Fabric, s: Step, o: Observation)
    requires Enabled(f, s)
    requires Waits(f, o) || Tried(f, o)
    requires s.Accept? ==> s.o.unit.service != o.unit.service
    ensures Waits(After(id, f, s), o) || Tried(After(id, f, s), o)
  {
    var f' := After(id, f, s);
    if Tried(f, o) {
      var i :| 0 <= i < |f.tried| && f.tried[i].o == o;
      assert f'.tried[i].o == o;
    } else if s.TakeBatch? {
      var i :| 0 <= i < |s.batch| && s.batch[i].unit.service == o.unit.service;
      assert s.batch[i] == o;
    } else if s.Send? && o in f.sender.rest {
      if f.sender.rest[0] == o {
        assert f'.tried[|f.tried|].o == o;
      } else {
        assert o in f.sender.rest[1..];
      }
    }
  }

  lemma StepKeepsLatest(id: Identity, f: Fabric, s: Step)
    requires LatestInv(f) && Enabled(f, s)
    ensures LatestInv(After(id, f, s))
  {
    var f' := After(id, f, s);
    forall k: nat | Latest(f', k)
      ensures Waits(f', f'.accepted[k]) || Tried(f', f'.accepted[k])
    {
      if k < |f.accepted| {
        assert Latest(f, k) by {
          assert forall j :: 0 <= j < |f.accepted| ==> f'.accepted[j] == f.accepted[j];
        }
        if s.Accept? {
          assert f'.accepted[|f.accepted|].unit.service == s.o.unit.service;
        }
        StepKeepsPlace(id, f, s, f.accepted[k]);
      }
    }
  }

  lemma StepKeepsInv(id: Identity, f: Fabric, s: Step)
    requires Inv(id, f) && Enabled(f, s)
    ensures Inv(id, After(id, f, s))
  {
    StepKeepsStamps(id, f, s);
    StepKeepsCount(id, f, s);
    StepKeepsWake(id, f, s);
    StepKeepsOrder(id, f, s);
    StepKeepsLatest(id, f, s);
  }

  lemma RunStepKeepsInv(id: Identity, states: seq<Fabric>, steps: seq<Step>, i: nat)
    requires IsRun(id, states, steps) && 0 < i < |states| && Inv(id, states[i - 1])
    ensures Inv(id, states[i])
  {
    StepKeepsInv(id, states[i - 1], steps[i - 1]);
  }

  lemma QuietKeepsInv(id: Identity, f: Fabric)
    requires f == QUIET
    ensures Inv(id, f)
  {
    assert OrderInv(f) && LatestInv(f);
  }

  lemma {:induction false} RunKeepsInv(id: Identity, states: seq<Fabric>, steps: seq<Step>, i: nat)
    requires IsRun(id, states, steps) && i < |states|
    ensures Inv(id, states[i])
  {
    if i == 0 {
      QuietKeepsInv(id, states[i]);
    } else {
      RunKeepsInv(id, states, steps, i - 1);
      RunStepKeepsInv(id, states, steps, i);
    }
  }

  // ----- the results, over whole runs

  /**
   Conservation and no lost wake-up. At every moment each accepted observation has been
   sent, refused, superseded, or is still held; and while anything is pending the sender
   is going to take it, unless the publisher was stopped.
   */
  lemma NothingIsLostOrForgotten(id: Identity, states: seq<Fabric>, steps: seq<Step>, i: nat)
    requires IsRun(id, states, steps) && i < |states|
    ensures CountInv(states[i]) && WakeInv(states[i])
  {
    RunKeepsInv(id, states, steps, i);
  }

  /**
   Order on the wire. What is handed to the connection about one service is a strictly
   increasing selection of what was accepted about it.
   */
  lemma TheWireIsInOrder(id: Identity, states: seq<Fabric>, steps: seq<Step>, i: nat, a: nat, b: nat)
    requires IsRun(id, states, steps) && i < |states|
    requires a < b < |states[i].tried|
    requires states[i].tried[a].o.unit.service == states[i].tried[b].o.unit.service
    ensures var x, y := states[i].tried[a].o, states[i].tried[b].o;
            && x.sequence < y.sequence
            && x.epoch == y.epoch == id.epoch
            && WasAccepted(states[i].accepted, x) && WasAccepted(states[i].accepted, y)
  {
    RunKeepsInv(id, states, steps, i);
    assert Before(states[i].tried[a].o, states[i].tried[b].o);
  }

  /**
   At rest the site has been told the latest: with no worker posting, no token and an
   idle sender, the last observation accepted about every service has been tried.
   */
  lemma AtRestTheLatestWasTried(id: Identity, states: seq<Fabric>, steps: seq<Step>, i: nat, k: nat)
    requires IsRun(id, states, steps) && i < |states|
    requires states[i].sender.Idle? && !states[i].wake && states[i].posting == 0
    requires Latest(states[i], k)
    ensures Tried(states[i], states[i].accepted[k])
    ensures |states[i].accepted| == states[i].ledger.sent + states[i].ledger.failed + states[i].ledger.superseded
  {
    RunKeepsInv(id, states, steps, i);
    assert |states[i].ledger.pending| == 0;
  }

  /**
   Supersession is the only way not to be tried: an observation a newer one of its
   service has replaced may be skipped, and no other.
   */
  lemma OnlySupersededAreSkipped(id: Identity, states: seq<Fabric>, steps: seq<Step>, i: nat, k: nat)
    requires IsRun(id, states, steps) && i < |states| && k < |states[i].accepted|
    requires !Tried(states[i], states[i].accepted[k]) && !Waits(states[i], states[i].accepted[k])
    ensures exists j :: k < j < |states[i].accepted|
                        && states[i].accepted[j].unit.service == states[i].accepted[k].unit.service
  {
    RunKeepsInv(id, states, steps, i);
    assert !Latest(states[i], k);
  }

  // ----- a drain is a run of the sender

  /** Every observation of the batch handed over in turn, refused where the connection refuses its service. */
  function Attempts(batch: seq<Observation>, refused: set<string>): seq<Attempt> {
    seq(|batch|, i requires 0 <= i < |batch| => Attempt(batch[i], batch[i].unit.service !in refused))
  }

  /** Steps that may be taken one after another from f, and lead to g. */
  ghost predicate Leads(id: Identity, f: Fabric, steps: seq<Step>, g: Fabric)
    decreases |steps|
  {
    if steps == [] then f == g else Enabled(f, steps[0]) && Leads(id, After(id, f, steps[0]), steps[1..], g)
  }

  lemma {:induction false} LeadsOn(id: Identity, f: Fabric, a: seq<Step>, g: Fabric, b: seq<Step>, h: Fabric)
    requires Leads(id, f, a, g) && Leads(id, g, b, h)
    ensures Leads(id, f, a + b, h)
    decreases |a|
  {
    if a == [] {
      assert a + b == b;
    } else {
      assert (a + b)[0] == a[0] && (a + b)[1..] == a[1..] + b;
      LeadsOn(id, After(id, f, a[0]), a[1..], g, b, h);
    }
  }

  /** The sender's state while a batch is being sent, its first k observations done. */
  function Sent(f: Fabric, batch: seq<Observation>, refused: set<string>, k: nat): Fabric
    requires k <= |batch|
  {
    var ok := CountSent(batch[..k], refused);
    f.(ledger := f.ledger.(pending := map[], sent := f.ledger.sent + ok,
                           failed := f.ledger.failed + Failures(batch[..k], refused)),
       sender := Sending(batch[k..]), tried := f.tried + Attempts(batch[..k], refused))
  }

  function Failures(batch: seq<Observation>, refused: set<string>): (n: nat)
    ensures n + CountSent(batch, refused) == |batch|
  {
    if batch == [] then 0
    else Failures(batch[..|batch| - 1], refused) + (if batch[|batch| - 1].unit.service in refused then 1 else 0)
  }

  lemma OneSent(id: Identity, f: Fabric, batch: seq<Observation>, refused: set<string>, k: nat)
    requires k < |batch|
    ensures var ok := batch[k].unit.service !in refused;
            Leads(id, Sent(f, batch, refused, k), [Send(ok), CountOne], Sent(f, batch, refused, k + 1))
  {
    var ok := batch[k].unit.service !in refused;
    var f0, f2 := Sent(f, batch, refused, k), Sent(f, batch, refused, k + 1);
    assert batch[..k + 1][..k] == batch[..k] && batch[k..][1..] == batch[k + 1..];
    assert Attempts(batch[..k + 1], refused) == Attempts(batch[..k], refused) + [Attempt(batch[k], ok)];
    var f1 := After(id, f0, Send(ok));
    assert f1.tried == f2.tried;
    assert After(id, f1, CountOne) == f2;
    assert [Send(ok), CountOne][1..] == [CountOne] && [CountOne][1..] == [];
    assert Leads(id, f1, [CountOne], f2);
  }

  lemma {:induction false} AllSent(id: Identity, f: Fabric, batch: seq<Observation>, refused: set<string>, k: nat)
    returns (steps: seq<Step>)
    requires k <= |batch|
    ensures Leads(id, Sent(f, batch, refused, 0), steps, Sent(f, batch, refused, k))
  {
    steps := [];
    if k > 0 {
      steps := AllSent(id, f, batch, refused, k - 1);
      OneSent(id, f, batch, refused, k - 1);
      var more := [Send(batch[k - 1].unit.service !in refused), CountOne];
      LeadsOn(id, Sent(f, batch, refused, 0), steps, Sent(f, batch, refused, k - 1), more, Sent(f, batch, refused, k));
      steps := steps + more;
    }
  }

  /** The sender at rest after the batch: nothing pending, every outcome counted. */
  function Rested(f: Fabric, batch: seq<Observation>, refused: set<string>): Fabric {
    var ok := CountSent(batch, refused);
    f.(ledger := f.ledger.(pending := map[], sent := f.ledger.sent + ok, failed := f.ledger.failed + (|batch| - ok)),
       sender := Idle, tried := f.tried + Attempts(batch, refused))
  }

  lemma Begins(id: Identity, f: Fabric, batch: seq<Observation>, refused: set<string>)
    requires f.sender.Woken? && Arranges(batch, f.ledger.pending)
    ensures Leads(id, f, [TakeBatch(batch)], Sent(f, batch, refused, 0))
  {
    assert batch[..0] == [] && batch[0..] == batch;
    assert Attempts([], refused) == [] && f.tried + [] == f.tried;
    assert After(id, f, TakeBatch(batch)) == Sent(f, batch, refused, 0);
    assert [TakeBatch(batch)][1..] == [];
  }

  lemma Rests(id: Identity, f: Fabric, batch: seq<Observation>, refused: set<string>)
    ensures Leads(id, Sent(f, batch, refused, |batch|), [FinishBatch], Rested(f, batch, refused))
  {
    var n := |batch|;
    assert batch[..n] == batch && batch[n..] == [];
    assert After(id, Sent(f, batch, refused, n), FinishBatch) == Rested(f, batch, refused);
    assert [FinishBatch][1..] == [];
  }

  /**
   What Drain does in one go is a run of the sender: it takes the whole map, hands every
   observation over once in the batch's order, counts each outcome, and rests.
   */
  lemma DrainIsARun(id: Identity, f: Fabric, batch: seq<Observation>, refused: set<string>) returns (steps: seq<Step>)
    requires f.sender.Woken? && Arranges(batch, f.ledger.pending)
    ensures Leads(id, f, steps, Rested(f, batch, refused))
  {
    var n := |batch|;
    Begins(id, f, batch, refused);
    var sends := AllSent(id, f, batch, refused, n);
    LeadsOn(id, f, [TakeBatch(batch)], Sent(f, batch, refused, 0), sends, Sent(f, batch, refused, n));
    Rests(id, f, batch, refused);
    LeadsOn(id, f, [TakeBatch(batch)] + sends, Sent(f, batch, refused, n), [FinishBatch], Rested(f, batch, refused));
    steps := [TakeBatch(batch)] + sends + [FinishBatch];
  }

  /** What Drain counts as sent is what was not refused, each once. */
  lemma {:induction false} SentExactlyWhen(batch: seq<Observation>, refused: set<string>)
    ensures CountSent(batch, refused) == |set i: nat | i < |batch| && batch[i].unit.service !in refused|
  {
    if batch != [] {
      var n := |batch| - 1;
      SentExactlyWhen(batch[..n], refused);
      var before := set i: nat | i < n && batch[..n][i].unit.service !in refused;
      var all := set i: nat | i < |batch| && batch[i].unit.service !in refused;
      assert all == before + (if batch[n].unit.service in refused then {} else {n});
    }
  }

  /** An accepted observation is what was reported, stamped with who reported it and when in its life. */
  lemma AcceptedKeepsTheReport(id: Identity, f: Fabric, o: Observation)
    ensures var g := After(id, f, Accept(o));
            && |g.accepted| == |f.accepted| + 1
            && var s := g.accepted[|f.accepted|];
               && s.unit.service == o.unit.service && s.status == o.status && s.detail == o.detail
               && s.unit.machine == id.machine && s.role == id.role && s.epoch == id.epoch
               && s.sequence == f.ledger.sequence + 1
               && o.unit.service in g.ledger.pending && g.ledger.pending[o.unit.service] == s
               && forall other :: other in f.ledger.pending && other != o.unit.service ==>
                    other in g.ledger.pending && g.ledger.pending[other] == f.ledger.pending[other]
  {
  }

  // ----- the token

  function Workers(steps: seq<Step>): int {
    if steps == [] then 0
    else
      var last := steps[|steps| - 1];
      Workers(steps[..|steps| - 1]) + (if last.Accept? then 1 else if last.PostToken? then -1 else 0)
  }

  /**
   The token is there exactly if one was posted since the sender last took it, and as many
   workers are about to post as have accepted and not posted.
   */
  lemma {:induction false} TokenMeans(id: Identity, states: seq<Fabric>, steps: seq<Step>, n: nat)
    requires IsRun(id, states, steps) && n <= |steps|
    ensures states[n].posting == Workers(steps[..n])
    ensures states[n].wake
            <==> exists i :: 0 <= i < n && steps[i].PostToken? && forall j :: i < j < n ==> !steps[j].TakeToken?
  {
    if n > 0 {
      TokenMeans(id, states, steps, n - 1);
      assert steps[..n][..n - 1] == steps[..n - 1];
      var s := steps[n - 1];
      if !s.PostToken? && !s.TakeToken? && states[n].wake {
        var i :| 0 <= i < n - 1 && steps[i].PostToken? && forall j :: i < j < n - 1 ==> !steps[j].TakeToken?;
        assert forall j :: i < j < n ==> !steps[j].TakeToken?;
      }
    }
  }

  /** A sender that left hands nothing more to the connection. */
  lemma {:induction false} ExitIsFinal(id: Identity, states: seq<Fabric>, steps: seq<Step>, i: nat, n: nat)
    requires IsRun(id, states, steps) && i < n <= |steps| && steps[i].Exit?
    ensures states[n].sender.Exited? && states[n].tried == states[i].tried
    decreases n
  {
    if n > i + 1 {
      ExitIsFinal(id, states, steps, i, n - 1);
      assert Enabled(states[n - 1], steps[n - 1]);
    } else {
      assert Enabled(states[i], steps[i]);
    }
  }
}
