/**
 What acquisition really is: a read, a write and a confirming read, with no lock between
 them. Two instances that contend for one free lease interleave those three accesses in
 any order. The protocol in Ownership takes an acquisition as one step; here is exactly
 what is lost when it is not, and how the next renewal repairs it.
 */
module AcquireRace {
  import opened Options
  import opened Lease

  datatype Phase = Idle | HasRead | HasWritten | Finished(held: bool)

  /** One contender, with the moments at which it wrote and confirmed. */
  datatype Racer = Racer(me: Identity, now: int, phase: Phase, wroteAt: Option<nat>, confirmedAt: Option<nat>)

  datatype Race = Race(moment: nat, file: Option<Record>, primary: Racer, standby: Racer)

  function Of(m: Race, r: Role): Racer {
    if r == Primary then m.primary else m.standby
  }

  function Put(m: Race, r: Role, x: Racer): Race {
    if r == Primary then m.(primary := x) else m.(standby := x)
  }

  /** The next file access of one contender, and what it leaves in the file; a finished one has none left. */
  function Access(x: Racer, file: Option<Record>, moment: nat): (Racer, Option<Record>) {
    match x.phase
    case Idle =>
      var decided := if SuccessorOf(x.me, x.now, file).Some? then HasRead else Finished(false);
      (x.(phase := decided), file)
    case HasRead =>
      (x.(phase := HasWritten, wroteAt := Some(moment)), Some(Grant(x.me, x.now)))
    case HasWritten =>
      (x.(phase := Finished(Confirms(x.me, file)), confirmedAt := Some(moment)), file)
    case Finished(_) => (x, file)
  }

  function Advance(m: Race, r: Role): Race {
    var (x, file) := Access(Of(m, r), m.file, m.moment);
    Put(m.(moment := m.moment + 1, file := file), r, x)
  }

  function Race0(file: Option<Record>, p: Identity, nowP: int, s: Identity, nowS: int): Race {
    Race(0, file, Racer(p, nowP, Idle, None, None), Racer(s, nowS, Idle, None, None))
  }

  /** The race after the contenders took their accesses in this order. */
  function Interleaved(m: Race, schedule: seq<Role>): Race {
    if schedule == [] then m
    else Advance(Interleaved(m, schedule[..|schedule| - 1]), schedule[|schedule| - 1])
  }

  /** With no access of the other in between, the accesses are the atomic acquisition. */
  lemma UninterruptedIsAtomic(m: Race, r: Role, hold: Hold)
    requires Of(m, r).phase.Idle?
    ensures var x, done := Of(m, r), Advance(Advance(Advance(m, r), r), r);
            var atomic := AcquireStep(x.me, x.now, hold, m.file, NoFault);
            && x.me.role == r ==>
                 && done.file == atomic.file && atomic.result.Ok?
                 && Of(done, r).phase == Finished(atomic.result.value.held) && Of(done, Peer(r)) == Of(m, Peer(r))
  {
  }

  ghost predicate Contended(file: Option<Record>, p: Identity, nowP: int, s: Identity, nowS: int) {
    && p.role == Primary && s.role == Standby
    && (file.Some? ==> file.value.Free(nowP) && file.value.Free(nowS))
  }

  /** r's write was overwritten before r read it back. */
  predicate Overwritten(x: Racer, other: Racer) {
    && x.wroteAt.Some? && x.confirmedAt.Some? && other.wroteAt.Some?
    && x.wroteAt.value < other.wroteAt.value < x.confirmedAt.value
  }

  ghost predicate RacerInv(m: Race, r: Role) {
    var x, other := Of(m, r), Of(m, Peer(r));
    && x.me.role == r
    && (x.phase.Idle? || x.phase.HasRead? ==> x.wroteAt.None? && x.confirmedAt.None?)
    && (x.phase.HasWritten? ==> x.wroteAt.Some? && x.confirmedAt.None?)
    && (x.wroteAt.Some? ==> x.wroteAt.value < m.moment)
    && (x.confirmedAt.Some? ==>
          x.phase.Finished? && x.wroteAt.Some? && x.wroteAt.value < x.confirmedAt.value < m.moment)
    && (x.phase.Finished? && x.wroteAt.Some? ==> x.confirmedAt.Some? && x.phase.held == !Overwritten(x, other))
    && (x.phase.Finished? && x.wroteAt.None? ==> !x.phase.held && other.wroteAt.Some?)
    && (x.wroteAt.Some? && other.wroteAt.Some? ==> x.wroteAt.value != other.wroteAt.value)
    && (x.confirmedAt.Some? && other.wroteAt.Some? ==> x.confirmedAt.value != other.wroteAt.value)
    // The file carries the last write.
    && (x.wroteAt.Some? && (other.wroteAt.None? || other.wroteAt.value < x.wroteAt.value) ==>
          m.file == Some(Grant(x.me, x.now)))
  }

  ghost predicate RaceInv(m: Race, file: Option<Record>) {
    && RacerInv(m, Primary) && RacerInv(m, Standby)
    && (m.primary.wroteAt.None? && m.standby.wroteAt.None? ==> m.file == file)
    && (file.Some? ==> file.value.Free(m.primary.now) && file.value.Free(m.standby.now))
  }

  lemma AdvanceKeepsOwn(m: Race, file: Option<Record>, r: Role)
    requires RaceInv(m, file)
    ensures RacerInv(Advance(m, r), r)
  {
    assert RacerInv(m, r) && RacerInv(m, Peer(r));
  }

  lemma AdvanceKeepsOther(m: Race, file: Option<Record>, r: Role)
    requires RaceInv(m, file)
    ensures RacerInv(Advance(m, r), Peer(r))
  {
    assert RacerInv(m, r) && RacerInv(m, Peer(r));
  }

  lemma AdvanceKeepsInv(m: Race, file: Option<Record>, r: Role)
    requires RaceInv(m, file)
    ensures RaceInv(Advance(m, r), file)
  {
    AdvanceKeepsOwn(m, file, r);
    AdvanceKeepsOther(m, file, r);
    var m' := Advance(m, r);
    assert RacerInv(m', Primary) && RacerInv(m', Standby);
    assert m'.primary.now == m.primary.now && m'.standby.now == m.standby.now;
  }

  lemma {:induction false} InterleavingKeepsInv(start: Race, file: Option<Record>, schedule: seq<Role>)
    requires RaceInv(start, file)
    ensures RaceInv(Interleaved(start, schedule), file)
  {
    if schedule != [] {
      InterleavingKeepsInv(start, file, schedule[..|schedule| - 1]);
      AdvanceKeepsInv(Interleaved(start, schedule[..|schedule| - 1]), file, schedule[|schedule| - 1]);
    }
  }

  /**
   Whatever the interleaving, a contended free lease ends up owned. It ends up owned
   twice exactly when both contenders wrote and one of them had already confirmed
   before the other wrote; in particular, never when both wrote before either confirmed.
   */
  lemma RaceOutcome(file: Option<Record>, p: Identity, nowP: int, s: Identity, nowS: int, schedule: seq<Role>)
    requires Contended(file, p, nowP, s, nowS)
    requires var m := Interleaved(Race0(file, p, nowP, s, nowS), schedule);
             m.primary.phase.Finished? && m.standby.phase.Finished?
    ensures var m := Interleaved(Race0(file, p, nowP, s, nowS), schedule);
            var x, y := m.primary, m.standby;
            && (x.phase.held || y.phase.held)
            && (x.phase.held && y.phase.held <==>
                  && x.wroteAt.Some? && y.wroteAt.Some? && x.confirmedAt.Some? && y.confirmedAt.Some?
                  && (x.confirmedAt.value < y.wroteAt.value || y.confirmedAt.value < x.wroteAt.value))
            && (x.wroteAt.Some? && y.wroteAt.Some? && x.confirmedAt.Some? && y.confirmedAt.Some?
                && x.wroteAt.value < y.confirmedAt.value && y.wroteAt.value < x.confirmedAt.value ==>
                  x.phase.held != y.phase.held)
  {
    var start := Race0(file, p, nowP, s, nowS);
    InterleavingKeepsInv(start, file, schedule);
    var m := Interleaved(start, schedule);
    assert RacerInv(m, Primary) && RacerInv(m, Standby);
  }

  /** The process's memory once it has won: the grant it wrote. */
  function Winner(x: Racer): Hold {
    Hold(true, Grant(x.me, x.now), None)
  }

  /**
   A double acquisition heals at the first renewal. The contender that wrote last is the
   one the file names and its renewal succeeds; the other's renewal, at any instant,
   reports that ownership is lost, writes nothing, and leaves the file as it was.
   */
  lemma DoubleAcquisitionHeals(file: Option<Record>, p: Identity, nowP: int, s: Identity, nowS: int,
                               schedule: seq<Role>, last: Role, now: int)
    requires Contended(file, p, nowP, s, nowS)
    requires var m := Interleaved(Race0(file, p, nowP, s, nowS), schedule);
             && m.primary.phase == Finished(true) && m.standby.phase == Finished(true)
             && Of(m, last).wroteAt.Some? && Of(m, Peer(last)).wroteAt.Some?
             && Of(m, last).wroteAt.value > Of(m, Peer(last)).wroteAt.value
    ensures var m := Interleaved(Race0(file, p, nowP, s, nowS), schedule);
            var winner, loser := Of(m, last), Of(m, Peer(last));
            && m.file == Some(Grant(winner.me, winner.now))
            && RenewStep(winner.me, now, Winner(winner), m.file, NoFault).error.None?
            && RenewStep(loser.me, now, Winner(loser), m.file, NoFault)
               == Changed(Winner(loser).(held := false), m.file, Some(OwnershipLost))
  {
    var start := Race0(file, p, nowP, s, nowS);
    InterleavingKeepsInv(start, file, schedule);
    var m := Interleaved(start, schedule);
    assert RacerInv(m, last) && RacerInv(m, Peer(last));
  }

  /** Both outcomes are real: this order of accesses leaves two holders. */
  lemma TwoHoldersCanHappen()
    ensures var start := Race0(None, Identity(Primary, 1, 15), 0, Identity(Standby, 2, 15), 0);
            var schedule := [Primary, Standby, Primary, Primary, Standby, Standby];
            var m := Interleaved(start, schedule);
            m.primary.phase == Finished(true) && m.standby.phase == Finished(true)
  {
    var start := Race0(None, Identity(Primary, 1, 15), 0, Identity(Standby, 2, 15), 0);
    var m1 := Advance(start, Primary);
    var m2 := Advance(m1, Standby);
    var m3 := Advance(m2, Primary);
    var m4 := Advance(m3, Primary);
    var m5 := Advance(m4, Standby);
    assert Interleaved(start, []) == start;
    assert Interleaved(start, [Primary]) == m1 by { assert [Primary][..0] == []; }
    assert [Primary, Standby][..1] == [Primary];
    assert Interleaved(start, [Primary, Standby]) == m2;
    assert [Primary, Standby, Primary][..2] == [Primary, Standby];
    assert Interleaved(start, [Primary, Standby, Primary]) == m3;
    assert [Primary, Standby, Primary, Primary][..3] == [Primary, Standby, Primary];
    assert Interleaved(start, [Primary, Standby, Primary, Primary]) == m4;
    assert [Primary, Standby, Primary, Primary, Standby][..4] == [Primary, Standby, Primary, Primary];
    assert Interleaved(start, [Primary, Standby, Primary, Primary, Standby]) == m5;
    assert [Primary, Standby, Primary, Primary, Standby, Standby][..5] == [Primary, Standby, Primary, Primary, Standby];
  }
}
