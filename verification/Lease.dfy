/**
 The machine-wide ownership lease: one record in one file, shared by the machine's
 two instances, and the operations each instance performs on it.

 Every operation is given twice. The functions AcquireStep, RenewStep and ReleaseStep
 are the operation as one atomic step over the file's content and the instance's own
 memory; the methods of Handle perform it on the shared file in place and are proved
 equal to the function. The protocol in Ownership interleaves the functions.
 */
module Lease {
  import opened Options

  datatype Role = Primary | Standby

  function Peer(r: Role): Role {
    if r == Primary then Standby else Primary
  }

  /** One grant as it is stored on disk. */
  datatype Record = Record(owner: Role, pid: int, expires: int, released: bool) {
    predicate Expired(now: int) {
      now >= expires
    }

    predicate Free(now: int) {
      released || Expired(now)
    }
  }

  datatype Acquisition = Acquisition(held: bool, abandoned: bool)

  datatype LeaseError = ReadFailed | WriteFailed | OwnershipLost

  /** Which file access of an operation fails, if one does. */
  datatype Fault = NoFault | ReadFails | WriteFails | ConfirmFails

  /** Who an instance is and how long its grants last. */
  datatype Identity = Identity(role: Role, pid: int, duration: int)

  /** What one process remembers about its ownership. */
  datatype Hold = Hold(held: bool, owned: Record, releasedAt: Option<int>) {
    /** The process believes it owns the machine, and its grant has not run out. */
    predicate Holds(clock: int) {
      held && !owned.Expired(clock)
    }
  }

  function NoHold(me: Identity): Hold {
    Hold(false, Record(me.role, 0, 0, false), None)
  }

  function Grant(me: Identity, now: int): Record {
    Record(me.role, me.pid, now + me.duration, false)
  }

  // ----- the read, write and confirm parts of an acquisition

  /** The record an acquirer that read cur writes, or None when it must not write. */
  function SuccessorOf(me: Identity, now: int, cur: Option<Record>): Option<Record> {
    if cur.Some? && !cur.value.Free(now) then None else Some(Grant(me, now))
  }

  /** Whether the record an acquirer reads back after writing is its own. */
  predicate Confirms(me: Identity, readBack: Option<Record>) {
    readBack.Some? && readBack.value.owner == me.role
  }

  // ----- the operations, as single steps over (memory, file)

  datatype Acquired = Acquired(hold: Hold, file: Option<Record>, result: Result<Acquisition, LeaseError>)

  function AcquireStep(me: Identity, now: int, hold: Hold, file: Option<Record>, fault: Fault): Acquired {
    if fault == ReadFails then Acquired(hold, file, Err(ReadFailed))
    else
      var next := SuccessorOf(me, now, file);
      if next.None? then Acquired(hold, file, Ok(Acquisition(false, false)))
      else if fault == WriteFails then Acquired(hold, file, Err(WriteFailed))
      else if fault == ConfirmFails then Acquired(hold, next, Err(ReadFailed))
      else
        Acquired(hold.(held := true, owned := next.value), next,
                 Ok(Acquisition(true, file.Some? && !file.value.released)))
  }

  datatype Changed = Changed(hold: Hold, file: Option<Record>, error: Option<LeaseError>)

  function RenewStep(me: Identity, now: int, hold: Hold, file: Option<Record>, fault: Fault): Changed {
    if !hold.held then Changed(hold, file, Some(OwnershipLost))
    else if fault == ReadFails then Changed(hold, file, Some(ReadFailed))
    else if file.None? || file.value.owner != hold.owned.owner then
      Changed(hold.(held := false), file, Some(OwnershipLost))
    else if fault == WriteFails then Changed(hold, file, Some(WriteFailed))
    else
      var next := file.value.(expires := now + me.duration, released := false);
      Changed(hold.(held := true, owned := next), Some(next), None)
  }

  function ReleaseStep(now: int, hold: Hold, file: Option<Record>, fault: Fault): Changed {
    if !hold.held then Changed(hold, file, None)
    else
      var dropped := hold.(held := false);
      if fault == ReadFails then Changed(dropped, file, Some(ReadFailed))
      else if file.None? || file.value.owner != hold.owned.owner then Changed(dropped, file, None)
      else if fault == WriteFails then Changed(dropped, file, Some(WriteFailed))
      else Changed(dropped.(releasedAt := Some(now)), Some(file.value.(released := true)), None)
  }

  // ----- what a promoter sees, and what it does about it

  datatype Availability = Held | Absent | Released | Lapsed

  /** A release outranks expiry: a released grant that also expired is still a handover. */
  function Observe(file: Option<Record>, now: int): Availability {
    if file.None? then Absent
    else if file.value.released then Released
    else if file.value.Expired(now) then Lapsed
    else Held
  }

  datatype Verdict = Leave | Handover | PeerHealthy | Take

  /** The promotion rules for an instance of this role. */
  function Promotion(role: Role, avail: Availability, owner: Role, now: int,
                     handedOver: Option<int>, duration: int, peerHealthy: bool): Verdict
  {
    match avail
    case Held => Leave
    case Absent => Take
    case Released =>
      if owner != role then Take
      else if handedOver.Some? && now - handedOver.value < duration then Handover
      else if peerHealthy then PeerHealthy
      else Take
    case Lapsed =>
      if owner == role then Take
      else if peerHealthy then PeerHealthy
      else Take
  }

  /** The owner a record names; an absent file names nobody, and no rule then looks. */
  function OwnerOf(file: Option<Record>): Role {
    if file.Some? then file.value.owner else Primary
  }

  /** One promotion decision by one instance against a file that does not move meanwhile. */
  function PromotionOn(role: Role, file: Option<Record>, now: int,
                       handedOver: Option<int>, duration: int, peerHealthy: bool): Verdict
  {
    Promotion(role, Observe(file, now), OwnerOf(file), now, handedOver, duration, peerHealthy)
  }

  /**
   The rules never take a valid grant, and never leave a free one without a claimant:
   whatever both health probes answer and whatever was handed over when, one of the
   two instances takes it.
   */
  lemma FreeGrantAlwaysHasAClaimant(file: Option<Record>, now: int, duration: int,
                                    byPrimary: Option<int>, byStandby: Option<int>,
                                    standbyLooksHealthy: bool, primaryLooksHealthy: bool)
    ensures var p := PromotionOn(Primary, file, now, byPrimary, duration, standbyLooksHealthy);
            var s := PromotionOn(Standby, file, now, byStandby, duration, primaryLooksHealthy);
            (p == Take || s == Take) <==> (file.None? || file.value.Free(now))
  {
  }

  /**
   A lone survivor is never shut out: once its peer answers no probe and its own
   handover window is over, it takes exactly the grants that are free.
   */
  lemma SurvivorTakesEveryFreeGrant(role: Role, file: Option<Record>, now: int,
                                    handedOver: Option<int>, duration: int)
    requires handedOver.Some? ==> now - handedOver.value >= duration
    ensures PromotionOn(role, file, now, handedOver, duration, false) == Take
       <==> (file.None? || file.value.Free(now))
  {
  }

  /**
   A serving owner that is only slow is not failed over: while the probe of the peer
   answers, the only grants taken are those the peer gave up, this instance's own
   lapsed one, and the first of all.
   */
  lemma HealthyPeerKeepsItsGrant(role: Role, file: Option<Record>, now: int,
                                 handedOver: Option<int>, duration: int)
    ensures PromotionOn(role, file, now, handedOver, duration, true) == Take
       <==> (|| file.None?
             || (file.value.owner == Peer(role) && file.value.released)
             || (file.value.owner == role && !file.value.released && file.value.Expired(now)))
  {
  }

  /** Whom a decision that takes nothing gives way to: a valid grant, its own fresh handover, or a peer that answers. */
  lemma WhyNotTaken(role: Role, file: Option<Record>, now: int, handedOver: Option<int>, duration: int,
                    peerHealthy: bool)
    ensures var v := PromotionOn(role, file, now, handedOver, duration, peerHealthy);
            && (v == Leave <==> file.Some? && !file.value.released && now < file.value.expires)
            && (v == Handover <==>
                  && file.Some? && file.value.released && file.value.owner == role
                  && handedOver.Some? && now - handedOver.value < duration)
            && (v == PeerHealthy ==> peerHealthy)
  {
  }

  /**
   What an acquisition does, access by access. It takes the file exactly if nothing there is
   valid, believes it only once it read itself back, and reports a takeover exactly if
   the grant it replaced was not handed over.
   */
  lemma AcquisitionMeans(me: Identity, now: int, hold: Hold, file: Option<Record>, fault: Fault)
    ensures var n := AcquireStep(me, now, hold, file, fault);
            var free := file.None? || file.value.released || file.value.expires <= now;
            && (n.file == file || n.file == Some(Record(me.role, me.pid, now + me.duration, false)))
            && (fault == ReadFails ==> n.result == Err(ReadFailed) && n.file == file)
            && (fault != ReadFails && !free ==> n.result == Ok(Acquisition(false, false)) && n.file == file)
            && (fault == WriteFails && free ==> n.result == Err(WriteFailed) && n.file == file)
            && (fault == ConfirmFails && free ==>
                  n.result == Err(ReadFailed) && n.file == Some(Record(me.role, me.pid, now + me.duration, false)))
            && (fault == NoFault && free ==>
                  && n.file == Some(Record(me.role, me.pid, now + me.duration, false))
                  && n.hold == Hold(true, Record(me.role, me.pid, now + me.duration, false), hold.releasedAt)
                  && n.result.Ok? && n.result.value.held
                  && (n.result.value.abandoned <==> file.Some? && !file.value.released))
            && (fault != NoFault || !free ==> n.hold == hold)
  {
  }

  // ----- the operations in place

  /** The lease file. A write replaces the whole record or leaves it as it was. */
  class LeaseFile {
    var record: Option<Record>

    constructor ()
      ensures record == None
    {
      record := None;
    }

    method Read(fails: bool) returns (r: Result<Option<Record>, LeaseError>)
      ensures r == if fails then Err(ReadFailed) else Ok(record)
    {
      r := if fails then Err(ReadFailed) else Ok(record);
    }

    method Write(next: Record, fails: bool) returns (error: Option<LeaseError>)
      modifies this
      ensures record == (if fails then old(record) else Some(next))
      ensures error == (if fails then Some(WriteFailed) else None)
    {
      if fails {
        return Some(WriteFailed);
      }
      record := Some(next);
      error := None;
    }
  }

  /** One instance's ownership handle on the shared file. */
  class Handle {
    const me: Identity
    const file: LeaseFile
    var held: bool
    var owned: Record
    var releasedAt: Option<int>

    function Memory(): Hold
      reads this
    {
      Hold(held, owned, releasedAt)
    }

    constructor (me: Identity, file: LeaseFile)
      ensures this.me == me && this.file == file
      ensures Memory() == NoHold(me)
    {
      this.me := me;
      this.file := file;
      held := false;
      owned := Record(me.role, 0, 0, false);
      releasedAt := None;
    }

    method TryAcquire(now: int, fault: Fault) returns (r: Result<Acquisition, LeaseError>)
      modifies this, file
      ensures AcquireStep(me, now, old(Memory()), old(file.record), fault)
              == Acquired(Memory(), file.record, r)
    {
      var cur := file.Read(fault == ReadFails);
      if cur.Err? {
        return Err(cur.error);
      }
      var next := SuccessorOf(me, now, cur.value);
      if next.None? {
        return Ok(Acquisition(false, false));
      }
      var failed := file.Write(next.value, fault == WriteFails);
      if failed.Some? {
        return Err(failed.value);
      }
      var confirmed := file.Read(fault == ConfirmFails);
      if confirmed.Err? {
        return Err(confirmed.error);
      }
      if !Confirms(me, confirmed.value) {
        return Ok(Acquisition(false, false));
      }
      held, owned := true, next.value;
      r := Ok(Acquisition(true, cur.value.Some? && !cur.value.value.released));
    }

    method Renew(now: int, fault: Fault) returns (error: Option<LeaseError>)
      modifies this, file
      ensures RenewStep(me, now, old(Memory()), old(file.record), fault)
              == Changed(Memory(), file.record, error)
    {
      if !held {
        return Some(OwnershipLost);
      }
      var cur := file.Read(fault == ReadFails);
      if cur.Err? {
        return Some(cur.error);
      }
      if cur.value.None? || cur.value.value.owner != owned.owner {
        held := false;
        return Some(OwnershipLost);
      }
      var next := cur.value.value.(expires := now + me.duration, released := false);
      var failed := file.Write(next, fault == WriteFails);
      if failed.Some? {
        return failed;
      }
      held, owned := true, next;
      error := None;
    }

    method Release(now: int, fault: Fault) returns (error: Option<LeaseError>)
      modifies this, file
      ensures ReleaseStep(now, old(Memory()), old(file.record), fault)
              == Changed(Memory(), file.record, error)
    {
      var wasHeld := held;
      held := false;
      if !wasHeld {
        return None;
      }
      var cur := file.Read(fault == ReadFails);
      if cur.Err? {
        return Some(cur.error);
      }
      if cur.value.None? || cur.value.value.owner != owned.owner {
        return None;
      }
      var failed := file.Write(cur.value.value.(released := true), fault == WriteFails);
      if failed.Some? {
        return failed;
      }
      releasedAt := Some(now);
      error := None;
    }

    /**
     One promotion decision. The peer's answer is consulted only where the rules ask
     for it, and the grant is then acquired against the same instant it was observed.
     */
    method EvaluatePromotion(now: int, observeFails: bool, hasPeerCheck: bool, peerAnswers: bool, fault: Fault)
      returns (r: Result<Acquisition, LeaseError>, verdict: Verdict)
      modifies this, file
      ensures observeFails ==>
                r == Err(ReadFailed) && Memory() == old(Memory()) && file.record == old(file.record)
      ensures !observeFails ==>
                verdict == PromotionOn(me.role, old(file.record), now, old(releasedAt), me.duration,
                                       hasPeerCheck && peerAnswers)
      ensures !observeFails && verdict != Take ==>
                r == Ok(Acquisition(false, false)) && Memory() == old(Memory()) && file.record == old(file.record)
      ensures !observeFails && verdict == Take ==>
                AcquireStep(me, now, old(Memory()), old(file.record), fault)
                == Acquired(Memory(), file.record, r)
    {
      var cur := file.Read(observeFails);
      if cur.Err? {
        return Err(cur.error), Leave;
      }
      match Observe(cur.value, now) {
        case Held =>
          return Ok(Acquisition(false, false)), Leave;
        case Absent =>
          r := TryAcquire(now, fault);
          return r, Take;
        case Released =>
          if OwnerOf(cur.value) != me.role {
            r := TryAcquire(now, fault);
            return r, Take;
          }
          if releasedAt.Some? && now - releasedAt.value < me.duration {
            return Ok(Acquisition(false, false)), Handover;
          }
        case Lapsed =>
          if OwnerOf(cur.value) == me.role {
            r := TryAcquire(now, fault);
            return r, Take;
          }
      }
      if hasPeerCheck && peerAnswers {
        return Ok(Acquisition(false, false)), PeerHealthy;
      }
      r := TryAcquire(now, fault);
      verdict := Take;
    }
  }
}
