/**
 What the steps of a turn lead to, over whole runs of the ownership protocol: what stops an
 instance and that it stays stopped, what a renewal does to its grant, and how a turn ends.
 */
module Turns {
  import opened Options
  import opened Lease
  import opened Ownership
  import W = Watchers

  /** Step i of the run is this action of this instance. */
  ghost predicate Takes(c: Config, run: Run, i: nat, r: Role, a: Action) {
    IsRun(c, run) && i < |run.steps| && run.steps[i] == By(r, a)
  }

  function Before(run: Run, i: nat, r: Role): Proc
    requires i < |run.states|
  {
    Of(run.states[i], r)
  }

  lemma StepTaken(c: Config, run: Run, i: nat, r: Role, a: Action)
    requires Takes(c, run, i, r, a)
    ensures i + 1 < |run.states| && Enabled(Before(run, i, r), run.states[i].clock, a)
    ensures Local(Before(run, i + 1, r), run.states[i + 1].file)
            == Act(c, r, Local(Before(run, i, r), run.states[i].file), run.states[i].clock, a)
    ensures LocalInv(r, Local(Before(run, i, r), run.states[i].file), run.states[i].clock)
  {
    RunKeepsInv(c, run, i);
    assert Next(c, run.states[i], run.steps[i], run.states[i + 1]);
  }

  // ----- what stops an instance

  /** The file does not name this instance. */
  predicate Lost(file: File, r: Role) {
    file.None? || file.value.owner != r
  }

  /** Within one renewal interval of the end of the grant. */
  predicate NearExpiry(c: Config, p: Proc, at: int) {
    p.hold.owned.expires - c.renewalInterval < at
  }

  /** The action tells the Active composition to stop. */
  predicate Stops(c: Config, r: Role, p: Proc, file: File, a: Action) {
    match a
    case Signal => true
    case FailbackFires => true
    case ActiveReturns => true
    case RenewTick(_, checkedAt, fault) =>
      if !p.hold.held then true
      else if fault == ReadFails then NearExpiry(c, p, checkedAt)
      else if Lost(file, r) then true
      else fault == WriteFails && NearExpiry(c, p, checkedAt)
    case _ => false
  }

  /**
   A process that is not down after a step is stopped exactly if it was or the step stops it;
   activation starts afresh.
   */
  lemma StoppedExactlyWhen(c: Config, run: Run, i: nat, r: Role, a: Action)
    requires Takes(c, run, i, r, a)
    ensures var p, p' := Before(run, i, r), Before(run, i + 1, r);
            && (a.Activate? ==> !p'.canceled)
            && (!a.Activate? && !a.Launch? && !p'.stage.Down? ==>
                  (p'.canceled <==> p.canceled || Stops(c, r, p, run.states[i].file, a)))
  {
    StepTaken(c, run, i, r, a);
  }

  /** Only its own steps touch a process. */
  lemma OthersLeaveIt(c: Config, run: Run, i: nat, r: Role)
    requires IsRun(c, run) && i < |run.steps| && !(run.steps[i].By? && run.steps[i].r == r)
    ensures Before(run, i + 1, r) == Before(run, i, r)
  {
    assert Next(c, run.states[i], run.steps[i], run.states[i + 1]);
    if run.steps[i].By? {
      assert r == Peer(run.steps[i].r);
    }
  }

  ghost predicate Activates(run: Run, k: nat, r: Role) {
    k < |run.steps| && run.steps[k] == By(r, Activate)
  }

  /**
   Once stopped, always stopped: whatever happens, a process that was told to stop serves
   no more until it activates again, and remembers it until then unless it goes down.
   */
  lemma {:induction false} StoppedStays(c: Config, run: Run, i: nat, j: nat, r: Role)
    requires IsRun(c, run) && i <= j < |run.states|
    requires Before(run, i, r).canceled && !Before(run, i, r).stage.Down?
    requires forall k :: i <= k < j ==> !Activates(run, k, r)
    ensures !(Before(run, j, r).active && !Before(run, j, r).canceled)
    ensures (forall k :: i <= k <= j ==> !Before(run, k, r).stage.Down?) ==> Before(run, j, r).canceled
    decreases j
  {
    IdleUntilActivation(c, run, i, j, r);
    if i < j && forall k :: i <= k <= j ==> !Before(run, k, r).stage.Down? {
      StoppedStays(c, run, i, j - 1, r);
      if run.steps[j - 1].By? && run.steps[j - 1].r == r {
        assert !Activates(run, j - 1, r);
        StoppedExactlyWhen(c, run, j - 1, r, run.steps[j - 1].a);
        StepTaken(c, run, j - 1, r, run.steps[j - 1].a);
      } else {
        OthersLeaveIt(c, run, j - 1, r);
      }
    }
  }

  lemma {:induction false} IdleUntilActivation(c: Config, run: Run, i: nat, j: nat, r: Role)
    requires IsRun(c, run) && i <= j < |run.states|
    requires !Before(run, i, r).active || Before(run, i, r).canceled
    requires forall k :: i <= k < j ==> !Activates(run, k, r)
    ensures !Before(run, j, r).active || Before(run, j, r).canceled
    decreases j
  {
    if i < j {
      IdleUntilActivation(c, run, i, j - 1, r);
      IdleAfterStep(c, run, j - 1, r);
    }
  }

  lemma IdleAfterStep(c: Config, run: Run, i: nat, r: Role)
    requires IsRun(c, run) && i < |run.steps| && !Activates(run, i, r)
    requires !Before(run, i, r).active || Before(run, i, r).canceled
    ensures !Before(run, i + 1, r).active || Before(run, i + 1, r).canceled
  {
    if run.steps[i].By? && run.steps[i].r == r {
      StepTaken(c, run, i, r, run.steps[i].a);
    } else {
      OthersLeaveIt(c, run, i, r);
    }
  }

  /** A failback that fires, or a signal, stops the instance until it activates again. */
  lemma StopIsFinal(c: Config, run: Run, i: nat, j: nat, r: Role, a: Action)
    requires Takes(c, run, i, r, a) && (a.FailbackFires? || a.Signal?) && i < j < |run.states|
    requires forall k :: i < k < j ==> !Activates(run, k, r)
    ensures Before(run, i + 1, r).canceled
    ensures !(Before(run, j, r).active && !Before(run, j, r).canceled)
    ensures (forall k :: i < k <= j ==> !Before(run, k, r).stage.Down?) ==> Before(run, j, r).canceled
  {
    StepTaken(c, run, i, r, a);
    StoppedExactlyWhen(c, run, i, r, a);
    StoppedStays(c, run, i + 1, j, r);
  }

  // ----- what a renewal does

  /**
   A renewal that fails to read or write changes neither grant nor file. It stops the
   instance if it is weighed within one interval of expiry, and otherwise nothing changes.
   */
  lemma FailedRenewal(c: Config, run: Run, i: nat, r: Role, now: int, checkedAt: int, fault: Fault)
    requires Takes(c, run, i, r, RenewTick(now, checkedAt, fault)) && Before(run, i, r).hold.held
    requires fault == ReadFails || (fault == WriteFails && !Lost(run.states[i].file, r))
    ensures var p, p' := Before(run, i, r), Before(run, i + 1, r);
            var stops := p.hold.owned.expires - c.renewalInterval < checkedAt;
            && run.states[i + 1].file == run.states[i].file && p'.hold == p.hold && p'.stage == p.stage
            && p'.renewal == !stops && (p'.canceled <==> p.canceled || stops)
  {
    StepTaken(c, run, i, r, RenewTick(now, checkedAt, fault));
  }

  /** A renewal that finds another name, or none, stops the instance at once and writes nothing. */
  lemma LostRenewal(c: Config, run: Run, i: nat, r: Role, now: int, checkedAt: int, fault: Fault)
    requires Takes(c, run, i, r, RenewTick(now, checkedAt, fault)) && fault != ReadFails
    requires Before(run, i, r).hold.held && Lost(run.states[i].file, r)
    ensures var p' := Before(run, i + 1, r);
            run.states[i + 1].file == run.states[i].file && !p'.hold.held && p'.canceled && !p'.renewal
  {
    StepTaken(c, run, i, r, RenewTick(now, checkedAt, fault));
  }

  /** Any other renewal extends the grant in file and memory to one duration from its instant, and stops nothing. */
  lemma GoodRenewal(c: Config, run: Run, i: nat, r: Role, now: int, checkedAt: int, fault: Fault)
    requires Takes(c, run, i, r, RenewTick(now, checkedAt, fault)) && fault != ReadFails && fault != WriteFails
    requires Before(run, i, r).hold.held && !Lost(run.states[i].file, r)
    ensures var p, p', file' := Before(run, i, r), Before(run, i + 1, r), run.states[i + 1].file;
            && file'.Some? && file'.value.owner == r && file'.value.pid == run.states[i].file.value.pid
            && file'.value.expires == now + c.duration && !file'.value.released
            && p'.hold.held && file' == Some(p'.hold.owned)
            && p'.renewal && p'.canceled == p.canceled && p'.stage == p.stage
  {
    StepTaken(c, run, i, r, RenewTick(now, checkedAt, fault));
  }

  // ----- how a turn begins and ends

  /** A release fails where the file cannot be read, or names this instance and cannot be written. */
  predicate ReleaseFails(p: Proc, file: File, r: Role, fault: Fault) {
    p.hold.held && (fault == ReadFails || (fault == WriteFails && !Lost(file, r)))
  }

  /**
   A turn ends down if the release fails or the process was told to end, and otherwise in
   waiting beside a passive composition, holding nothing. The file is marked released
   exactly if this instance held it, it still names it, and nothing failed.
   */
  lemma TurnEnds(c: Config, run: Run, i: nat, r: Role, now: int, fault: Fault, ends: bool)
    requires Takes(c, run, i, r, HandBack(now, fault, ends))
    ensures var p, p' := Before(run, i, r), Before(run, i + 1, r);
            var file, file' := run.states[i].file, run.states[i + 1].file;
            var failed := ReleaseFails(p, file, r, fault);
            && (p'.stage.Down? <==> failed || ends) && (p'.stage.Down? || p'.stage.Waiting?)
            && (p'.stage.Waiting? ==> p'.passive) && !p'.hold.held && !p'.active && !p'.renewal && !p'.failback
            && (if p.hold.held && !failed && !Lost(file, r) then
                  && file' == Some(file.value.(released := true))
                  && (p'.stage.Waiting? ==> p'.hold.releasedAt == Some(now))
                else file' == file)
  {
    StepTaken(c, run, i, r, HandBack(now, fault, ends));
  }

  /**
   A process starts by taking a free grant at once, or else waits; it goes down if the
   file fails it.
   */
  lemma FirstTurn(c: Config, run: Run, i: nat, r: Role, now: int, fault: Fault)
    requires Takes(c, run, i, r, FirstAcquire(now, fault))
    ensures var p', file, file' := Before(run, i + 1, r), run.states[i].file, run.states[i + 1].file;
            var free := file.None? || file.value.released || now >= file.value.expires;
            && (p'.stage.Down? <==> fault == ReadFails || (free && fault != NoFault))
            && (p'.stage.Waiting? <==> !free && fault != ReadFails)
            && (p'.stage.Waiting? ==> p'.passive && !p'.hold.held && file' == file)
            && (!p'.stage.Down? && !p'.stage.Waiting? ==>
                  && p'.stage.Won? && p'.hold.held && file' == Some(p'.hold.owned)
                  && p'.hold.owned == Record(r, p'.pid, now + c.duration, false))
  {
    StepTaken(c, run, i, r, FirstAcquire(now, fault));
  }

  /** A look at the file that does not fail remembers its instant, whom the file names and in what state it is. */
  lemma Looks(c: Config, run: Run, i: nat, r: Role, now: int, fails: bool)
    requires Takes(c, run, i, r, Look(now, fails))
    ensures run.states[i + 1].file == run.states[i].file
    ensures var p, p', file := Before(run, i, r), Before(run, i + 1, r), run.states[i].file;
            if fails then p' == p
            else
              && p'.stage.Deciding? && p'.stage.now == now && p'.hold == p.hold && p'.passive == p.passive
              && (file.Some? ==> p'.stage.owner == file.value.owner)
              && (p'.stage.avail.Absent? <==> file.None?)
              && (p'.stage.avail.Released? <==> file.Some? && file.value.released)
              && (p'.stage.avail.Lapsed? <==> file.Some? && !file.value.released && now >= file.value.expires)
  {
    StepTaken(c, run, i, r, Look(now, fails));
  }

  /**
   A decision wins a turn exactly if the rules say to take and what the file holds by then is
   still free at the instant of the look.
   */
  lemma Decides(c: Config, run: Run, i: nat, r: Role, peerAnswers: bool, fault: Fault)
    requires Takes(c, run, i, r, Decide(peerAnswers, fault))
    ensures var p, p' := Before(run, i, r), Before(run, i + 1, r);
            var file, file' := run.states[i].file, run.states[i + 1].file;
            var now := p.stage.now;
            var takes := DecisionOf(c, r, p, peerAnswers) == Take;
            var free := file.None? || file.value.released || now >= file.value.expires;
            && (p'.stage.Won? <==> takes && free && fault == NoFault) && (p'.stage.Won? || p'.stage.Waiting?)
            && p'.passive == p.passive
            && (p'.stage.Won? ==>
                  p'.hold.held && file' == Some(p'.hold.owned)
                  && p'.hold.owned == Record(r, p.pid, now + c.duration, false))
            && (p'.stage.Waiting? ==> p'.hold == p.hold)
  {
    StepTaken(c, run, i, r, Decide(peerAnswers, fault));
  }

  /**
   Serving begins once the passive composition is gone, with a renewal loop; a Standby that
   can probe also watches for the Primary.
   */
  lemma Serves(c: Config, run: Run, i: nat, r: Role)
    requires Takes(c, run, i, r, Activate)
    ensures run.states[i + 1].file == run.states[i].file
    ensures var p, p' := Before(run, i, r), Before(run, i + 1, r);
            && p.hold.held && !p.passive && p'.hold == p.hold
            && p'.stage.Serving? && p'.active && p'.renewal && !p'.canceled && !p'.passive
            && (p'.failback <==> r == Standby && c.hasPeerCheck && c.failbackWindow > 0)
  {
    StepTaken(c, run, i, r, Activate);
  }

  /** A turn is joined only after the Active composition returned and both loops ended; nothing else is touched. */
  lemma Joins(c: Config, run: Run, i: nat, r: Role)
    requires Takes(c, run, i, r, Join)
    ensures run.states[i + 1].file == run.states[i].file
    ensures var p, p' := Before(run, i, r), Before(run, i + 1, r);
            && !p.active && !p.renewal && !p.failback && p'.stage.Releasing? && p'.hold == p.hold
            && p'.canceled == p.canceled
  {
    StepTaken(c, run, i, r, Join);
  }

  /**
   Each loop that runs beside the Active composition ends, and is over then; it ends by itself
   only once told to stop.
   */
  lemma LoopsEnd(c: Config, run: Run, i: nat, r: Role, a: Action)
    requires Takes(c, run, i, r, a)
    ensures run.states[i + 1].file == run.states[i].file || a.FirstAcquire? || a.Decide? || a.RenewTick? || a.HandBack?
    ensures var p, p' := Before(run, i, r), Before(run, i + 1, r);
            && (a.RenewalStops? ==> p.renewal && p.canceled && p' == p.(renewal := false))
            && (a.FailbackFires? ==> p.failback && p' == p.(failback := false, canceled := true))
            && (a.FailbackStops? ==> p.failback && p.canceled && p' == p.(failback := false))
            && (a.RenewTick? ==> p.renewal && a.now <= a.checkedAt <= run.states[i].clock)
  {
    StepTaken(c, run, i, r, a);
  }

  /**
   A waiting process leaves only once its passive composition is closed, and an instant it
   acts on is never ahead of the clock.
   */
  lemma LeavesInOrder(c: Config, run: Run, i: nat, r: Role, a: Action)
    requires Takes(c, run, i, r, a)
    ensures a.GiveUpWaiting? ==> !Before(run, i, r).passive && Before(run, i + 1, r).stage.Down?
    ensures a.PassiveReturns? ==> Before(run, i + 1, r) == Before(run, i, r).(passive := false)
    ensures a.FirstAcquire? || a.Look? || a.HandBack? ==> a.now <= run.states[i].clock
    ensures a.Launch? ==> Before(run, i, r).stage.Down? && Before(run, i + 1, r).stage.Booting?
                          && Before(run, i + 1, r).pid == a.pid && !Before(run, i + 1, r).hold.held
    ensures a.Crash? ==> Before(run, i + 1, r).stage.Down?
  {
    StepTaken(c, run, i, r, a);
  }

  // ----- a turn's renewals are the renewal loop's

  /** The renewals of this instance between two states, each with what it found in the file. */
  function TicksOf(run: Run, r: Role, i: nat, j: nat): seq<W.Tick>
    requires i <= j < |run.states| && |run.states| == |run.steps| + 1
  {
    if i == j then []
    else
      TicksOf(run, r, i, j - 1)
      + (if run.steps[j - 1].By? && run.steps[j - 1].r == r && run.steps[j - 1].a.RenewTick? then
           var a := run.steps[j - 1].a;
           [W.Tick(a.now, run.states[j - 1].file, a.fault, a.checkedAt)]
         else [])
  }

  /** Between the two states this instance does nothing but renew. */
  ghost predicate OnlyRenews(run: Run, r: Role, i: nat, j: nat)
    requires i <= j < |run.states| && |run.states| == |run.steps| + 1
  {
    forall k :: i <= k < j && run.steps[k].By? && run.steps[k].r == r ==> run.steps[k].a.RenewTick?
  }

  lemma PrefixTicks(ticks: seq<W.Tick>, tick: W.Tick, me: Identity, renewalInterval: int, hold: Hold)
    ensures (ticks + [tick])[..|ticks|] == ticks
    ensures forall k: nat :: k < |ticks| ==>
              W.StopsAt(me, renewalInterval, hold, ticks + [tick], k)
              == W.StopsAt(me, renewalInterval, hold, ticks, k)
  {
    forall k: nat | k < |ticks|
      ensures (ticks + [tick])[..k] == ticks[..k]
    {
    }
  }

  ghost predicate FollowsLoop(c: Config, me: Identity, start: Hold, ticks: seq<W.Tick>, p: Proc) {
    && p.hold == W.HoldAfter(me, start, ticks)
    && (p.renewal ==> forall k: nat :: k < |ticks| ==> !W.StopsAt(me, c.renewalInterval, start, ticks, k))
    && (!p.renewal ==> ticks != [] && W.StopsAt(me, c.renewalInterval, start, ticks, |ticks| - 1))
    && (forall k: nat :: k + 1 < |ticks| ==> !W.StopsAt(me, c.renewalInterval, start, ticks, k))
  }

  lemma RenewalFollowsLoop(c: Config, r: Role, p: Proc, file: File, clock: int, now: int, checkedAt: int, fault: Fault,
                           start: Hold, ticks: seq<W.Tick>)
    requires FollowsLoop(c, Me(c, r, p), start, ticks, p) && Enabled(p, clock, RenewTick(now, checkedAt, fault))
    ensures var q := Act(c, r, Local(p, file), clock, RenewTick(now, checkedAt, fault)).p;
            FollowsLoop(c, Me(c, r, p), start, ticks + [W.Tick(now, file, fault, checkedAt)], q)
  {
    PrefixTicks(ticks, W.Tick(now, file, fault, checkedAt), Me(c, r, p), c.renewalInterval, start);
  }

  /** A serving instance's memory, and whether it still renews, are what the renewal loop makes of its ticks. */
  lemma {:induction false} TurnFollowsTheLoop(c: Config, run: Run, r: Role, i: nat, j: nat)
    requires IsRun(c, run) && i <= j < |run.states| && OnlyRenews(run, r, i, j) && Before(run, i, r).renewal
    ensures Before(run, j, r).pid == Before(run, i, r).pid
    ensures FollowsLoop(c, Me(c, r, Before(run, i, r)), Before(run, i, r).hold,
                        TicksOf(run, r, i, j), Before(run, j, r))
    decreases j
  {
    if i < j {
      TurnFollowsTheLoop(c, run, r, i, j - 1);
      var s := run.steps[j - 1];
      if s.By? && s.r == r {
        StepTaken(c, run, j - 1, r, s.a);
        RenewalFollowsLoop(c, r, Before(run, j - 1, r), run.states[j - 1].file, run.states[j - 1].clock, s.a.now,
                           s.a.checkedAt, s.a.fault, Before(run, i, r).hold, TicksOf(run, r, i, j - 1));
      } else {
        OthersLeaveIt(c, run, j - 1, r);
        assert TicksOf(run, r, i, j) == TicksOf(run, r, i, j - 1);
      }
    }
  }

  /**
   The step-down bound in the machine. An instance whose renewals are punctual, and that
   gives up on a file it cannot read or write, does so in the last renewal interval of
   its grant and never after it ran out.
   */
  lemma StepsDownInTime(c: Config, run: Run, r: Role, i: nat, j: nat, granted: int)
    requires IsRun(c, run) && i < j < |run.states| && OnlyRenews(run, r, i, j)
    requires 0 < c.renewalInterval < c.duration
    requires Before(run, i, r).renewal && Before(run, i, r).hold.owned.expires == granted + c.duration
    requires var me, start := Me(c, r, Before(run, i, r)), Before(run, i, r).hold;
             var ticks := TicksOf(run, r, i, j);
             && W.Punctual(me, c.renewalInterval, start, granted, ticks)
             && ticks != [] && W.Transient(me, start, ticks, |ticks| - 1)
    requires !Before(run, j, r).renewal
    ensures var expires, ticks := Before(run, j, r).hold.owned.expires, TicksOf(run, r, i, j);
            expires - c.renewalInterval < ticks[|ticks| - 1].checkedAt <= expires
  {
    var me, start := Me(c, r, Before(run, i, r)), Before(run, i, r).hold;
    var ticks := TicksOf(run, r, i, j);
    TurnFollowsTheLoop(c, run, r, i, j);
    W.StepDownBound(me, c.renewalInterval, start, granted, ticks, |ticks| - 1);
    assert W.ExpiryAt(me, start, ticks, |ticks| - 1) == Before(run, j, r).hold.owned.expires;
  }
}
