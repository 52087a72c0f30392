/**
 The ownership protocol of one machine: two instances, one lease file, one clock.

 A process takes turns: it waits Passive, evaluates promotion, wins the grant, closes
 its passive composition, serves Active beside a renewal loop and (on a Standby) a
 failback watcher, joins both, releases, and waits again. Every lease operation is one
 step. Anything else interleaves freely: time passes, file accesses fail, probes answer
 what they like, compositions return when they like, processes crash and are started
 again, and an instant a process sampled may be old by the time it acts on it.
 */
module Ownership {
  import opened Options
  import opened Lease

  /** The machine's lease policy, and whether a peer probe was composed. */
  datatype Config = Config(duration: int, renewalInterval: int, failbackWindow: int, hasPeerCheck: bool)

  datatype Stage =
    | Down
    | Booting
    | Waiting
    | Deciding(now: int, avail: Availability, owner: Role)
    | Won
    | Serving
    | Joining
    | Releasing

  /** One process. The four flags say which of its compositions and loops are running. */
  datatype Proc = Proc(
    stage: Stage, pid: int, hold: Hold,
    passive: bool, active: bool, renewal: bool, failback: bool,
    canceled: bool)
  {
    /** From winning the grant up to giving it back. */
    predicate InTurn() {
      stage == Won || stage == Serving || stage == Joining || stage == Releasing
    }
  }

  type File = Option<Record>

  /** One process and the file it shares: all that an action reads or writes. */
  datatype Local = Local(p: Proc, file: File)

  datatype Action =
    | Launch(pid: int)
    | Crash
    | FirstAcquire(now: int, fault: Fault)
    | PassiveReturns
    | GiveUpWaiting
    | Look(now: int, fails: bool)
    | Decide(peerAnswers: bool, fault: Fault)
    | Activate
    | RenewTick(now: int, checkedAt: int, fault: Fault)
    | RenewalStops
    | FailbackFires
    | FailbackStops
    | Signal
    | ActiveReturns
    | Join
    | HandBack(now: int, fault: Fault, ends: bool)

  function Me(c: Config, r: Role, p: Proc): Identity {
    Identity(r, p.pid, c.duration)
  }

  function Fresh(r: Role, stage: Stage, pid: int): Proc {
    Proc(stage, pid, NoHold(Identity(r, pid, 0)), false, false, false, false, false)
  }

  function DecisionOf(c: Config, r: Role, p: Proc, peerAnswers: bool): Verdict
    requires p.stage.Deciding?
  {
    Promotion(r, p.stage.avail, p.stage.owner, p.stage.now, p.hold.releasedAt, c.duration,
              c.hasPeerCheck && peerAnswers)
  }

  /** A renewal loop that hit a transient failure gives up within one interval of expiry. */
  predicate TooClose(c: Config, owned: Record, checkedAt: int) {
    checkedAt > owned.expires - c.renewalInterval
  }

  predicate Enabled(p: Proc, clock: int, a: Action) {
    match a
    case Launch(_) => p.stage.Down?
    case Crash => !p.stage.Down?
    case FirstAcquire(now, _) => p.stage.Booting? && now <= clock
    case PassiveReturns => p.passive
    case GiveUpWaiting => p.stage.Waiting? && !p.passive
    case Look(now, _) => p.stage.Waiting? && now <= clock
    case Decide(_, _) => p.stage.Deciding?
    case Activate => p.stage.Won? && !p.passive
    case RenewTick(now, checkedAt, _) => p.renewal && now <= checkedAt <= clock
    case RenewalStops => p.renewal && p.canceled
    case FailbackFires => p.failback
    case FailbackStops => p.failback && p.canceled
    case Signal => p.stage.Serving?
    case ActiveReturns => p.active
    case Join => p.stage.Joining? && !p.renewal && !p.failback
    case HandBack(now, _, _) => p.stage.Releasing? && now <= clock
  }

  function Act(c: Config, r: Role, l: Local, clock: int, a: Action): Local
    requires Enabled(l.p, clock, a)
  {
    var p, file := l.p, l.file;
    match a
    case Launch(pid) => Local(Fresh(r, Booting, pid), file)
    case Crash => Local(Fresh(r, Down, 0), file)
    case FirstAcquire(now, fault) =>
      var n := AcquireStep(Me(c, r, p), now, p.hold, file, fault);
      var p' :=
        if n.result.Err? then Fresh(r, Down, 0)
        else if n.result.value.held then p.(stage := Won, hold := n.hold)
        else p.(stage := Waiting, hold := n.hold, passive := true);
      Local(p', n.file)
    case PassiveReturns => Local(p.(passive := false), file)
    case GiveUpWaiting => Local(Fresh(r, Down, 0), file)
    case Look(now, fails) =>
      if fails then l else Local(p.(stage := Deciding(now, Observe(file, now), OwnerOf(file))), file)
    case Decide(peerAnswers, fault) =>
      if DecisionOf(c, r, p, peerAnswers) != Take then Local(p.(stage := Waiting), file)
      else
        var n := AcquireStep(Me(c, r, p), p.stage.now, p.hold, file, fault);
        var won := n.result.Ok? && n.result.value.held;
        Local(p.(stage := if won then Won else Waiting, hold := n.hold), n.file)
    case Activate =>
      var watches := r == Standby && c.hasPeerCheck && c.failbackWindow > 0;
      Local(p.(stage := Serving, active := true, renewal := true, failback := watches, canceled := false), file)
    case RenewTick(now, checkedAt, fault) =>
      var n := RenewStep(Me(c, r, p), now, p.hold, file, fault);
      var quits := n.error == Some(OwnershipLost) || (n.error.Some? && TooClose(c, p.hold.owned, checkedAt));
      Local(p.(hold := n.hold, renewal := !quits, canceled := p.canceled || quits), n.file)
    case RenewalStops => Local(p.(renewal := false), file)
    case FailbackFires => Local(p.(failback := false, canceled := true), file)
    case FailbackStops => Local(p.(failback := false), file)
    case Signal => Local(p.(canceled := true), file)
    case ActiveReturns => Local(p.(stage := Joining, active := false, canceled := true), file)
    case Join => Local(p.(stage := Releasing), file)
    case HandBack(now, fault, ends) =>
      var n := ReleaseStep(now, p.hold, file, fault);
      var p' :=
        if n.error.Some? || ends then Fresh(r, Down, 0)
        else p.(stage := Waiting, hold := n.hold, passive := true);
      Local(p', n.file)
  }

  // ----- the machine

  datatype Machine = Machine(clock: int, file: File, primary: Proc, standby: Proc)

  function Of(m: Machine, r: Role): Proc {
    if r == Primary then m.primary else m.standby
  }

  datatype Step = Tick(clock: int) | By(r: Role, a: Action)

  ghost predicate Start(m: Machine) {
    && m.file.None?
    && m.primary == Fresh(Primary, Down, 0)
    && m.standby == Fresh(Standby, Down, 0)
  }

  ghost predicate Next(c: Config, m: Machine, s: Step, m': Machine) {
    match s
    case Tick(clock) => m.clock <= clock && m' == m.(clock := clock)
    case By(r, a) =>
      && Enabled(Of(m, r), m.clock, a)
      && Local(Of(m', r), m'.file) == Act(c, r, Local(Of(m, r), m.file), m.clock, a)
      && Of(m', Peer(r)) == Of(m, Peer(r))
      && m'.clock == m.clock
  }

  /** A whole run: states[i] becomes states[i+1] by steps[i]. */
  datatype Run = Run(states: seq<Machine>, steps: seq<Step>)

  ghost predicate IsRun(c: Config, run: Run) {
    && |run.states| == |run.steps| + 1
    && Start(run.states[0])
    && forall i {:trigger run.steps[i]} :: 0 <= i < |run.steps| ==>
       Next(c, run.states[i], run.steps[i], run.states[i + 1])
  }

  // ----- what every step keeps

  ghost predicate TurnInv(r: Role, p: Proc, clock: int) {
    && (p.passive ==> p.stage.Waiting? || p.stage.Deciding? || p.stage.Won?)
    && (p.active <==> p.stage.Serving?)
    && (p.renewal || p.failback ==> p.stage.Serving? || p.stage.Joining?)
    && (p.hold.held ==> p.InTurn() && p.hold.owned.owner == r)
    && (p.stage.Won? ==> p.hold.held)
    && (p.stage.Serving? && !p.canceled ==> p.hold.held && p.renewal)
    && (p.stage.Deciding? ==> p.stage.now <= clock)
  }

  ghost predicate GrantInv(r: Role, l: Local, clock: int) {
    var p := l.p;
    var mine := l.file.Some? && l.file.value.owner == r;
    // A record naming a process that believes it holds is the grant it remembers.
    && (p.hold.held && mine ==> l.file == Some(p.hold.owned))
    // A grant a process still counts on is the file's record.
    && (p.hold.Holds(clock) ==> l.file == Some(p.hold.owned))
    // While a turn lasts, a record naming its instance is not marked released.
    && (p.InTurn() && mine ==> !l.file.value.released)
    // A decision about one's own handover was taken from that very record.
    && (p.stage.Deciding? && mine && l.file.value.released ==> p.stage.avail == Released && p.stage.owner == r)
  }

  ghost predicate LocalInv(r: Role, l: Local, clock: int) {
    TurnInv(r, l.p, clock) && GrantInv(r, l, clock)
  }

  ghost predicate Inv(m: Machine) {
    && LocalInv(Primary, Local(m.primary, m.file), m.clock)
    && LocalInv(Standby, Local(m.standby, m.file), m.clock)
  }

  /** An action keeps the invariant of the process that takes it. */
  lemma ActKeepsOwn(c: Config, r: Role, l: Local, clock: int, a: Action)
    requires LocalInv(r, l, clock) && Enabled(l.p, clock, a)
    ensures LocalInv(r, Act(c, r, l, clock, a), clock)
  {
  }

  /** How one instance may change the file: only its own grant, or one that is free. */
  ghost predicate Lawful(r: Role, file: File, file': File, clock: int) {
    || file' == file
    || (file'.Some? && file'.value.owner == r
        && (file.None? || file.value.owner == r || file.value.Free(clock)))
  }

  lemma ActIsLawful(c: Config, r: Role, l: Local, clock: int, a: Action)
    requires LocalInv(r, l, clock) && Enabled(l.p, clock, a)
    ensures Lawful(r, l.file, Act(c, r, l, clock, a).file, clock)
  {
  }

  /** A lawful change by one instance keeps the invariant of the other. */
  lemma LawfulKeepsPeer(r: Role, q: Proc, file: File, file': File, clock: int)
    requires LocalInv(Peer(r), Local(q, file), clock)
    requires Lawful(r, file, file', clock)
    ensures LocalInv(Peer(r), Local(q, file'), clock)
  {
  }

  lemma StepKeepsInv(c: Config, m: Machine, s: Step, m': Machine)
    requires Inv(m) && Next(c, m, s, m')
    ensures Inv(m')
  {
    if s.By? {
      var l := Local(Of(m, s.r), m.file);
      ActKeepsOwn(c, s.r, l, m.clock, s.a);
      ActIsLawful(c, s.r, l, m.clock, s.a);
      LawfulKeepsPeer(s.r, Of(m, Peer(s.r)), m.file, m'.file, m.clock);
    }
  }

  lemma {:induction false} RunKeepsInv(c: Config, run: Run, i: nat)
    requires IsRun(c, run) && i < |run.states|
    ensures Inv(run.states[i])
  {
    if i > 0 {
      RunKeepsInv(c, run, i - 1);
      StepKeepsInv(c, run.states[i - 1], run.steps[i - 1], run.states[i]);
    }
  }

  // ----- the results, over whole runs

  /**
   Mutual exclusion. At every moment of every run a grant some process still counts on
   is exactly the file's record, so at most one process counts on one.
   */
  lemma AtMostOneHolder(c: Config, run: Run, i: nat)
    requires IsRun(c, run) && i < |run.states|
    ensures var m := run.states[i];
            && (forall r: Role :: Of(m, r).hold.Holds(m.clock) ==>
                  m.file == Some(Of(m, r).hold.owned) && m.file.value.owner == r)
            && !(m.primary.hold.Holds(m.clock) && m.standby.hold.Holds(m.clock))
  {
    RunKeepsInv(c, run, i);
    forall r: Role | Of(run.states[i], r).hold.Holds(run.states[i].clock)
      ensures run.states[i].file == Some(Of(run.states[i], r).hold.owned) && run.states[i].file.value.owner == r
    {
      assert r == Primary || r == Standby;
    }
  }

  /**
   Two instances can serve at once only while one of them has outlived its grant and
   not yet been told to stop.
   */
  lemma TwoServersMeansOneIsOverdue(c: Config, run: Run, i: nat)
    requires IsRun(c, run) && i < |run.states|
    requires forall r: Role :: Of(run.states[i], r).active && !Of(run.states[i], r).canceled
    ensures exists r: Role :: Of(run.states[i], r).hold.owned.Expired(run.states[i].clock)
  {
    var m := run.states[i];
    RunKeepsInv(c, run, i);
    AtMostOneHolder(c, run, i);
    assert Of(m, Primary).active && Of(m, Standby).active;
    assert Of(m, Primary).hold.owned.Expired(m.clock) || Of(m, Standby).hold.owned.Expired(m.clock);
  }

  /** Turn discipline of each process, and what a released record says about its former owner. */
  lemma TurnsNeverOverlap(c: Config, run: Run, i: nat, r: Role)
    requires IsRun(c, run) && i < |run.states|
    ensures var m := run.states[i];
            var p := Of(m, r);
            && !(p.passive && p.active)
            && (p.active && !p.canceled ==> p.hold.held && p.renewal)
            && (m.file.Some? && m.file.value.released && m.file.value.owner == r ==>
                  !p.active && !p.renewal && !p.failback && !p.hold.held)
  {
    RunKeepsInv(c, run, i);
    assert r == Primary || r == Standby;
  }

  ghost predicate TriesToAcquire(s: Step) {
    s.By? && (s.a.FirstAcquire? || s.a.Decide?)
  }

  /**
   What a single step may do to the file, anywhere in any run: a record naming the other
   instance is only replaced once it is free, and only by an acquisition; a release mark
   disappears only by an acquisition; and nothing but an acquisition or a renewal gives
   the file a grant that is not released.
   */
  lemma EveryWriteIsLawful(c: Config, run: Run, i: nat)
    requires IsRun(c, run) && i < |run.steps|
    requires run.states[i + 1].file != run.states[i].file
    ensures var m, s, m' := run.states[i], run.steps[i], run.states[i + 1];
            && s.By?
            && m'.file.Some? && m'.file.value.owner == s.r
            && (m.file.Some? && m.file.value.owner != s.r ==> m.file.value.Free(m.clock) && TriesToAcquire(s))
            && (m.file.Some? && m.file.value.released ==> TriesToAcquire(s))
            && (m'.file.value.released <==> s.a.HandBack?)
  {
    var m, s, m' := run.states[i], run.steps[i], run.states[i + 1];
    RunKeepsInv(c, run, i);
    assert Next(c, m, s, m');
    ActIsLawful(c, s.r, Local(Of(m, s.r), m.file), m.clock, s.a);
  }

  ghost predicate Claims(run: Run, i: nat, r: Role)
    requires i < |run.steps| && |run.states| == |run.steps| + 1
  {
    && run.steps[i].By? && run.steps[i].r == r && TriesToAcquire(run.steps[i])
    && run.states[i + 1].file != run.states[i].file
  }

  /** The process that handed over at t is still waiting on its own handover, or gone. */
  ghost predicate HandedOver(m: Machine, r: Role, released: Record, t: int) {
    var p := Of(m, r);
    && m.file == Some(released)
    && (p.stage.Down? || ((p.stage.Waiting? || p.stage.Deciding?) && p.hold.releasedAt == Some(t)))
  }

  lemma StepKeepsHandedOver(c: Config, run: Run, i: nat, r: Role, released: Record, t: int)
    requires IsRun(c, run) && i < |run.steps|
    requires released.owner == r && released.released
    requires HandedOver(run.states[i], r, released, t)
    requires !(run.steps[i].By? && run.steps[i].r == r && run.steps[i].a.Launch?)
    requires forall q: Role :: !Claims(run, i, q)
    ensures HandedOver(run.states[i + 1], r, released, t)
  {
    var m, s, m' := run.states[i], run.steps[i], run.states[i + 1];
    assert Next(c, m, s, m');
    RunKeepsInv(c, run, i);
    if m'.file != m.file {
      EveryWriteIsLawful(c, run, i);
      assert Claims(run, i, s.r);
    }
    if s.By? && s.r != r {
      assert s.r == Peer(r);
    }
  }

  lemma {:induction false} HandoverStands(c: Config, run: Run, i: nat, j: nat, r: Role, released: Record, t: int)
    requires IsRun(c, run) && i <= j < |run.states|
    requires released.owner == r && released.released
    requires HandedOver(run.states[i], r, released, t)
    requires forall k :: i <= k < j ==> !(run.steps[k].By? && run.steps[k].r == r && run.steps[k].a.Launch?)
    requires forall k, q: Role :: i <= k < j ==> !Claims(run, k, q)
    ensures HandedOver(run.states[j], r, released, t)
    decreases j - i
  {
    if i < j {
      StepKeepsHandedOver(c, run, i, r, released, t);
      HandoverStands(c, run, i + 1, j, r, released, t);
    }
  }

  /**
   No ping-pong. A process that handed its grant over at t takes the file back, if the
   peer claimed nothing in between, only by a decision made at an instant no earlier
   than t plus the lease duration and only when the peer answered no probe.
   */
  lemma NoPingPong(c: Config, run: Run, i: nat, j: nat, r: Role, t: int)
    requires IsRun(c, run) && i < j < |run.steps|
    requires run.steps[i].By? && run.steps[i].r == r && run.steps[i].a.HandBack? && run.steps[i].a.now == t
    requires run.states[i + 1].file != run.states[i].file
    requires forall k :: i < k < j ==> !(run.steps[k].By? && run.steps[k].r == r && run.steps[k].a.Launch?)
    requires forall k, q: Role :: i < k < j ==> !Claims(run, k, q)
    requires Claims(run, j, r)
    ensures run.steps[j].a.Decide?
    ensures Of(run.states[j], r).stage.Deciding?
    ensures Of(run.states[j], r).stage.now >= t + c.duration
    ensures !(c.hasPeerCheck && run.steps[j].a.peerAnswers)
  {
    assert Next(c, run.states[i], run.steps[i], run.states[i + 1]);
    RunKeepsInv(c, run, i);
    EveryWriteIsLawful(c, run, i);
    var released := run.states[i + 1].file.value;
    HandoverStands(c, run, i + 1, j, r, released, t);
    assert Next(c, run.states[j], run.steps[j], run.states[j + 1]);
    RunKeepsInv(c, run, j);
  }
}
