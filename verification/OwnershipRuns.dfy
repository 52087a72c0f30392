/** Concrete runs of the ownership protocol: what its theorems speak about does happen. */
module OwnershipRuns {
  import opened Options
  import opened Lease
  import opened Ownership

  lemma Extend(c: Config, run: Run, s: Step, m': Machine) returns (longer: Run)
    requires IsRun(c, run) && Next(c, run.states[|run.steps|], s, m')
    ensures IsRun(c, longer) && longer == Run(run.states + [m'], run.steps + [s])
  {
    longer := Run(run.states + [m'], run.steps + [s]);
    forall i | 0 <= i < |longer.steps|
      ensures Next(c, longer.states[i], longer.steps[i], longer.states[i + 1])
    {
      if i < |run.steps| {
        assert Next(c, run.states[i], run.steps[i], run.states[i + 1]);
      }
    }
  }

  const Policy := Config(15, 5, 30, true)
  const Alone := Fresh(Standby, Down, 0)
  const FirstGrant := Record(Primary, 7, 15, false)
  const Holding := Hold(true, FirstGrant, None)
  const Serves := Fresh(Primary, Serving, 7).(hold := Holding, active := true, renewal := true)
  const Waits := Fresh(Standby, Waiting, 8).(passive := true)

  /** A Primary that wins the first grant and serves. */
  lemma PrimaryServes() returns (run: Run)
    ensures IsRun(Policy, run) && |run.steps| == 3
    ensures run.states[3] == Machine(0, Some(FirstGrant), Serves, Alone)
  {
    run := Run([Machine(0, None, Fresh(Primary, Down, 0), Alone)], []);
    run := Extend(Policy, run, By(Primary, Launch(7)), Machine(0, None, Fresh(Primary, Booting, 7), Alone));
    run := Extend(Policy, run, By(Primary, FirstAcquire(0, NoFault)),
                  Machine(0, Some(FirstGrant), Fresh(Primary, Won, 7).(hold := Holding), Alone));
    run := Extend(Policy, run, By(Primary, Activate), Machine(0, Some(FirstGrant), Serves, Alone));
  }

  /** The serving Primary dies beside a waiting Standby, and its grant runs out. */
  lemma PrimaryDies() returns (run: Run)
    ensures IsRun(Policy, run) && |run.steps| == 7
    ensures run.states[3] == Machine(0, Some(FirstGrant), Serves, Alone)
    ensures run.states[7] == Machine(15, Some(FirstGrant), Fresh(Primary, Down, 0), Waits)
  {
    run := PrimaryServes();
    var boots := Fresh(Standby, Booting, 8);
    run := Extend(Policy, run, By(Standby, Launch(8)), Machine(0, Some(FirstGrant), Serves, boots));
    run := Extend(Policy, run, By(Standby, FirstAcquire(0, NoFault)), Machine(0, Some(FirstGrant), Serves, Waits));
    run := Extend(Policy, run, By(Primary, Crash), Machine(0, Some(FirstGrant), Fresh(Primary, Down, 0), Waits));
    run := Extend(Policy, run, Tick(15), Machine(15, Some(FirstGrant), Fresh(Primary, Down, 0), Waits));
  }

  /** The protocol moves: a run in which the Standby takes over from a Primary that died serving. */
  lemma FailoverHappens() returns (run: Run)
    ensures IsRun(Policy, run) && |run.steps| == 11
    ensures run.states[3].primary.active && run.states[3].primary.hold.Holds(run.states[3].clock)
    ensures var m := run.states[11];
            m.standby.active && m.standby.hold.Holds(m.clock) && m.primary.stage.Down?
  {
    run := PrimaryDies();
    var gone, second := Fresh(Primary, Down, 0), Record(Standby, 8, 30, false);
    var decides := Waits.(stage := Deciding(15, Lapsed, Primary));
    var takes := decides.(stage := Won, hold := Hold(true, second, None));
    var closed := takes.(passive := false);
    var serves := closed.(stage := Serving, active := true, renewal := true, failback := true);
    run := Extend(Policy, run, By(Standby, Look(15, false)), Machine(15, Some(FirstGrant), gone, decides));
    run := Extend(Policy, run, By(Standby, Decide(false, NoFault)), Machine(15, Some(second), gone, takes));
    run := Extend(Policy, run, By(Standby, PassiveReturns), Machine(15, Some(second), gone, closed));
    run := Extend(Policy, run, By(Standby, Activate), Machine(15, Some(second), gone, serves));
  }

  /** A Primary that serves one turn on its own and is about to hand back. */
  lemma OneTurn() returns (run: Run)
    ensures IsRun(Policy, run) && |run.steps| == 6
    ensures run.states[6]
            == Machine(0, Some(FirstGrant), Fresh(Primary, Releasing, 7).(hold := Holding, canceled := true), Alone)
  {
    var leaves := Serves.(stage := Joining, active := false, canceled := true);
    run := PrimaryServes();
    run := Extend(Policy, run, By(Primary, ActiveReturns), Machine(0, Some(FirstGrant), leaves, Alone));
    run := Extend(Policy, run, By(Primary, RenewalStops),
                  Machine(0, Some(FirstGrant), leaves.(renewal := false), Alone));
    run := Extend(Policy, run, By(Primary, Join),
                  Machine(0, Some(FirstGrant), leaves.(renewal := false, stage := Releasing), Alone));
  }

  /** What NoPingPong speaks about happens, and its bound is met exactly: a handover nobody took, taken back. */
  lemma HandoverComesBack() returns (run: Run)
    ensures IsRun(Policy, run) && |run.steps| == 10
    ensures run.steps[6] == By(Primary, HandBack(0, NoFault, false)) && run.states[7].file != run.states[6].file
    ensures run.steps[7] == Tick(15) && run.steps[8] == By(Primary, Look(15, false))
    ensures !Claims(run, 8, Primary) && Claims(run, 9, Primary)
    ensures run.states[9].primary.stage == Deciding(0 + Policy.duration, Released, Primary)
  {
    var given, again := FirstGrant.(released := true), Record(Primary, 7, 30, false);
    run := OneTurn();
    var waits := run.states[6].primary.(stage := Waiting, hold := Hold(false, FirstGrant, Some(0)), passive := true);
    var decides := waits.(stage := Deciding(15, Released, Primary));
    var takes := decides.(stage := Won, hold := Hold(true, again, Some(0)));
    run := Extend(Policy, run, By(Primary, HandBack(0, NoFault, false)), Machine(0, Some(given), waits, Alone));
    run := Extend(Policy, run, Tick(15), Machine(15, Some(given), waits, Alone));
    run := Extend(Policy, run, By(Primary, Look(15, false)), Machine(15, Some(given), decides, Alone));
    run := Extend(Policy, run, By(Primary, Decide(false, NoFault)), Machine(15, Some(again), takes, Alone));
  }
}
