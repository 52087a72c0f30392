/**
 What a renewal or a release really is: a read and a later write, with no lock between
 them. Meanwhile the peer may acquire, by a read, a write and a confirming read. Here is
 what every interleaving of those five accesses leaves, and how it heals.
 */
module UpdateRace {
  import opened Options
  import opened Lease
  import opened AcquireRace

  datatype Stage = Waiting | Seen(cur: Record) | Over(held: bool, wrote: Option<Record>)

  /** The holder, renewing or releasing, with the moments at which it read and wrote. */
  datatype Updater = Updater(
    me: Identity, now: int, releasing: bool, hold: Hold, stage: Stage, readAt: Option<nat>, wroteAt: Option<nat>)

  datatype Contest = Contest(moment: nat, file: Option<Record>, holder: Updater, peer: Racer)

  /** What a renewal that read cur writes, and what a release does. */
  function RenewedFrom(me: Identity, now: int, cur: Record): Record {
    cur.(expires := now + me.duration, released := false)
  }

  function ReleasedFrom(cur: Record): Record {
    cur.(released := true)
  }

  function Updated(x: Updater, cur: Record): Record {
    if x.releasing then ReleasedFrom(cur) else RenewedFrom(x.me, x.now, cur)
  }

  function Update(m: Contest): Contest {
    var x, later := m.holder, m.(moment := m.moment + 1);
    match x.stage
    case Waiting =>
      var lost := m.file.None? || m.file.value.owner != x.hold.owned.owner;
      later.(holder := x.(stage := if lost then Over(false, None) else Seen(m.file.value), readAt := Some(m.moment)))
    case Seen(cur) =>
      later.(file := Some(Updated(x, cur)),
             holder := x.(stage := Over(!x.releasing, Some(Updated(x, cur))), wroteAt := Some(m.moment)))
    case Over(_, _) => later
  }

  function Acquire(m: Contest): Contest {
    var (y, file) := Access(m.peer, m.file, m.moment);
    m.(moment := m.moment + 1, file := file, peer := y)
  }

  /** The contest after accesses in this order; true is the holder's turn. */
  function Played(m: Contest, schedule: seq<bool>): Contest {
    if schedule == [] then m
    else
      var before := Played(m, schedule[..|schedule| - 1]);
      if schedule[|schedule| - 1] then Update(before) else Acquire(before)
  }

  function Contest0(cur: Record, me: Identity, now: int, releasing: bool, hold: Hold, peer: Identity,
                    peerNow: int): Contest {
    Contest(0, Some(cur), Updater(me, now, releasing, hold, Waiting, None, None),
            Racer(peer, peerNow, Idle, None, None))
  }

  ghost predicate Contested(cur: Record, me: Identity, hold: Hold, peer: Identity) {
    hold.held && hold.owned.owner == cur.owner == me.role && peer.role == Peer(me.role)
  }

  /** With no access of the peer in between, the two accesses are the atomic operation. */
  lemma UninterruptedIsAtomic(m: Contest)
    requires m.holder.stage.Waiting? && m.holder.hold.held
    ensures var x, done := m.holder, Update(Update(m));
            var atomic := if x.releasing then ReleaseStep(x.now, x.hold, m.file, NoFault)
                          else RenewStep(x.me, x.now, x.hold, m.file, NoFault);
            && done.file == atomic.file && done.holder.stage.Over? && done.holder.stage.held == atomic.hold.held
            && (!x.releasing && done.holder.stage.wrote.Some? ==> Renewed(done.holder) == atomic.hold)
  {
  }

  // ----- what every interleaving keeps

  predicate Before(a: Option<nat>, b: Option<nat>) {
    a.Some? && b.Some? && a.value < b.value
  }

  /** The peer wrote, and the holder's write came before it read back. */
  predicate Disturbed(m: Contest) {
    Before(m.peer.wroteAt, m.holder.wroteAt) && Before(m.holder.wroteAt, m.peer.confirmedAt)
  }

  ghost predicate HolderInv(m: Contest) {
    var x, y := m.holder, m.peer;
    && x.hold.owned.owner == x.me.role
    && (x.readAt.Some? <==> !x.stage.Waiting?) && (x.readAt.Some? ==> x.readAt.value < m.moment)
    && (x.wroteAt.Some? <==> x.stage.Over? && x.stage.wrote.Some?) && (x.wroteAt.Some? ==> x.wroteAt.value < m.moment)
    && (x.stage.Seen? ==> x.stage.cur.owner == x.me.role && !Before(y.wroteAt, x.readAt))
    && (x.stage.Over? ==> x.stage.held == (x.stage.wrote.Some? && !x.releasing))
    && (x.stage.Over? && x.stage.wrote.Some? ==> x.stage.wrote.value.owner == x.me.role && Before(x.readAt, x.wroteAt))
    && (x.stage.Over? ==> (x.stage.wrote.None? <==> Before(y.wroteAt, x.readAt)))
    && (x.releasing && x.stage.Over? && x.stage.wrote.Some? ==> x.stage.wrote.value.released)
  }

  ghost predicate PeerInv(m: Contest) {
    var x, y := m.holder, m.peer;
    && y.me.role == Peer(x.me.role)
    && (y.wroteAt.Some? ==> y.wroteAt.value < m.moment && (y.phase.HasWritten? || y.phase.Finished?))
    && (y.phase.HasWritten? ==> y.wroteAt.Some? && y.confirmedAt.None?)
    && (y.confirmedAt.Some? ==> y.phase.Finished? && Before(y.wroteAt, y.confirmedAt) && y.confirmedAt.value < m.moment)
    && (y.phase.Finished? && y.wroteAt.Some? ==> y.confirmedAt.Some? && y.phase.held == !Disturbed(m))
    && (y.phase.Finished? && y.wroteAt.None? ==> !y.phase.held)
  }

  /** The file carries the last write. */
  ghost predicate FileInv(m: Contest, cur: Record) {
    var x, y := m.holder, m.peer;
    && (x.wroteAt.None? && y.wroteAt.None? ==> m.file == Some(cur))
    && (x.wroteAt.Some? && y.wroteAt.Some? ==> x.wroteAt != y.wroteAt)
    && (x.wroteAt.Some? && !Before(x.wroteAt, y.wroteAt) ==> x.stage.Over? && m.file == x.stage.wrote)
    && (y.wroteAt.Some? && !Before(y.wroteAt, x.wroteAt) ==> m.file == Some(Grant(y.me, y.now)))
  }

  ghost predicate ContestInv(m: Contest, cur: Record) {
    HolderInv(m) && PeerInv(m) && FileInv(m, cur) && cur.owner == m.holder.me.role
  }

  predicate SameParties(m: Contest, m': Contest) {
    && m'.holder.me == m.holder.me && m'.holder.releasing == m.holder.releasing && m'.holder.hold == m.holder.hold
    && m'.peer.me == m.peer.me && m'.peer.now == m.peer.now
  }

  lemma UpdateKeepsInv(m: Contest, cur: Record)
    requires ContestInv(m, cur)
    ensures ContestInv(Update(m), cur)
  {
    var m' := Update(m);
    assert HolderInv(m');
    assert PeerInv(m');
    assert FileInv(m', cur);
  }

  lemma AcquireKeepsInv(m: Contest, cur: Record)
    requires ContestInv(m, cur)
    ensures ContestInv(Acquire(m), cur)
  {
    var m' := Acquire(m);
    assert HolderInv(m');
    assert PeerInv(m');
    assert FileInv(m', cur);
  }

  lemma {:induction false} PlayingKeepsInv(start: Contest, cur: Record, schedule: seq<bool>)
    requires ContestInv(start, cur)
    ensures ContestInv(Played(start, schedule), cur) && SameParties(start, Played(start, schedule))
  {
    if schedule != [] {
      var before := Played(start, schedule[..|schedule| - 1]);
      PlayingKeepsInv(start, cur, schedule[..|schedule| - 1]);
      if schedule[|schedule| - 1] {
        UpdateKeepsInv(before, cur);
      } else {
        AcquireKeepsInv(before, cur);
      }
    }
  }

  // ----- the outcome

  ghost predicate Ended(m: Contest) {
    m.holder.stage.Over? && m.peer.phase.Finished?
  }

  /**
   Every interleaving. The holder writes exactly if it read before the peer wrote. The peer
   ends up holding exactly if it wrote and the holder's write did not come between its write
   and its confirming read. So a renewal leaves two holders exactly when both wrote and the
   holder's write did not come in between, and the file names whoever wrote last.
   */
  lemma UpdateOutcome(cur: Record, me: Identity, now: int, releasing: bool, hold: Hold, peer: Identity, peerNow: int,
                      schedule: seq<bool>)
    requires Contested(cur, me, hold, peer)
    requires Ended(Played(Contest0(cur, me, now, releasing, hold, peer, peerNow), schedule))
    ensures var m := Played(Contest0(cur, me, now, releasing, hold, peer, peerNow), schedule);
            var x, y := m.holder, m.peer;
            && (x.wroteAt.Some? <==> !Before(y.wroteAt, x.readAt))
            && (y.phase.held <==> y.wroteAt.Some? && !Disturbed(m))
            && (x.stage.held <==> x.wroteAt.Some? && !releasing)
            && (x.stage.held && y.phase.held <==>
                  !releasing && x.wroteAt.Some? && y.wroteAt.Some? && !Disturbed(m))
            && m.file.Some?
            && (m.file.value.owner == me.role <==> y.wroteAt.None? || Before(y.wroteAt, x.wroteAt))
  {
    var start := Contest0(cur, me, now, releasing, hold, peer, peerNow);
    PlayingKeepsInv(start, cur, schedule);
  }

  /** What the holder remembers after a renewal that wrote. */
  function Renewed(x: Updater): Hold
    requires x.stage.Over? && x.stage.wrote.Some?
  {
    x.hold.(held := true, owned := x.stage.wrote.value)
  }

  /**
   Whoever believes it holds and is not the one the file names finds out at its next renewal,
   at any instant, and leaves the file alone. After a release the file then offers the
   machine the peer still believes it holds.
   */
  lemma LateWriteHeals(cur: Record, me: Identity, now: int, releasing: bool, hold: Hold, peer: Identity, peerNow: int,
                       schedule: seq<bool>, later: int)
    requires Contested(cur, me, hold, peer)
    requires Ended(Played(Contest0(cur, me, now, releasing, hold, peer, peerNow), schedule))
    ensures var m := Played(Contest0(cur, me, now, releasing, hold, peer, peerNow), schedule);
            var x, y := m.holder, m.peer;
            && m.file.Some? && (x.stage.held ==> x.stage.wrote.Some?)
            && (x.stage.held && m.file.value.owner != me.role ==>
                  RenewStep(me, later, Renewed(x), m.file, NoFault)
                  == Changed(Renewed(x).(held := false), m.file, Some(OwnershipLost)))
            && (y.phase.held && m.file.value.owner == me.role ==>
                  && RenewStep(peer, later, Winner(y), m.file, NoFault)
                     == Changed(Winner(y).(held := false), m.file, Some(OwnershipLost))
                  && (releasing ==> m.file.value.Free(later)))
  {
    var start := Contest0(cur, me, now, releasing, hold, peer, peerNow);
    PlayingKeepsInv(start, cur, schedule);
    UpdateOutcome(cur, me, now, releasing, hold, peer, peerNow, schedule);
  }

  // ----- the order that loses most

  /** The holder reads, the peer acquires, the holder writes. */
  const LATE: seq<bool> := [true, false, false, false, true]

  lemma PlayedLate(m: Contest)
    ensures Played(m, LATE) == Update(Acquire(Acquire(Acquire(Update(m)))))
  {
    assert LATE[..4] == [true, false, false, false] && LATE[..4][..3] == [true, false, false];
    assert [true, false, false][..2] == [true, false] && [true, false][..1] == [true] && [true][..0] == [];
    assert Played(m, []) == m;
    assert Played(m, [true]) == Update(m);
    assert Played(m, [true, false]) == Acquire(Update(m));
    assert Played(m, [true, false, false]) == Acquire(Acquire(Update(m)));
  }

  /**
   A late renewal wipes the new grant out: both believe they hold, exactly when the record
   read was free for the peer.
   */
  lemma LateRenewalOverwrites(cur: Record, me: Identity, now: int, hold: Hold, peer: Identity, peerNow: int)
    requires Contested(cur, me, hold, peer)
    ensures var m := Played(Contest0(cur, me, now, false, hold, peer, peerNow), LATE);
            && Ended(m) && m.file == Some(RenewedFrom(me, now, cur)) && m.holder.stage.held
            && (m.peer.phase.held <==> cur.Free(peerNow))
  {
    PlayedLate(Contest0(cur, me, now, false, hold, peer, peerNow));
  }

  /** A late release likewise: the file then offers a machine that the peer already holds. */
  lemma LateReleaseOverwrites(cur: Record, me: Identity, now: int, hold: Hold, peer: Identity, peerNow: int, later: int)
    requires Contested(cur, me, hold, peer)
    ensures var m := Played(Contest0(cur, me, now, true, hold, peer, peerNow), LATE);
            && Ended(m) && m.file == Some(ReleasedFrom(cur)) && m.file.value.Free(later)
            && (m.peer.phase.held <==> cur.Free(peerNow))
  {
    PlayedLate(Contest0(cur, me, now, true, hold, peer, peerNow));
  }
}
