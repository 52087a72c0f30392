/**
 One instance's durable record and the epoch it carries. An epoch is handed to a caller
 only after it reached the disk, so no run of starts, crashes and failed writes hands
 one out twice.
 */
module InstanceState {
  import opened Options
  import opened Text

  datatype Reason = ProcessStarted | Activated | OtherReason

  datatype Counter = Counter(count: nat, updatedAt: int)

  datatype State = State(epoch: nat, updatedAt: int, processEpoch: Counter, activationEpoch: Counter)

  const NEVER_RUN := State(0, 0, Counter(0, 0), Counter(0, 0))

  /** The state file: absent, present but undecodable, or a record. */
  datatype Disk = Absent | Corrupt | Stored(state: State)

  datatype StateError = InvalidPath | ReadFailed | DecodeFailed | UnknownReason | WriteFailed

  /** The record the next incarnation for this reason is. */
  function Advanced(s: State, reason: Reason, at: int): Result<State, StateError> {
    var next := s.(epoch := s.epoch + 1, updatedAt := at);
    match reason
    case ProcessStarted => Ok(next.(processEpoch := Counter(s.processEpoch.count + 1, at)))
    case Activated => Ok(next.(activationEpoch := Counter(s.activationEpoch.count + 1, at)))
    case OtherReason => Err(UnknownReason)
  }

  function Loaded(disk: Disk): Result<State, StateError> {
    match disk
    case Absent => Ok(NEVER_RUN)
    case Corrupt => Err(DecodeFailed)
    case Stored(s) => Ok(s)
  }

  class StateFile {
    var disk: Disk

    constructor ()
      ensures disk == Absent
    {
      disk := Absent;
    }
  }

  class Store {
    const file: StateFile
    var state: State

    constructor (file: StateFile, state: State)
      ensures this.file == file && this.state == state
    {
      this.file, this.state := file, state;
    }

    /** Raises the epoch and one counter by one, on disk first and in memory after. */
    method Advance(reason: Reason, at: int, writeFails: bool) returns (r: Result<State, StateError>)
      modifies this, file
      ensures var next := Advanced(old(state), reason, at);
              if next.Err? then
                r == next && state == old(state) && file.disk == old(file.disk)
              else if writeFails then
                r == Err(WriteFailed) && state == old(state) && file.disk == old(file.disk)
              else
                r == next && state == next.value && file.disk == Stored(next.value)
    {
      var next := state;
      match reason {
        case ProcessStarted =>
          next := next.(processEpoch := Counter(next.processEpoch.count + 1, at));
        case Activated =>
          next := next.(activationEpoch := Counter(next.activationEpoch.count + 1, at));
        case OtherReason =>
          return Err(UnknownReason);
      }
      next := next.(epoch := next.epoch + 1, updatedAt := at);
      if writeFails {
        return Err(WriteFailed);
      }
      file.disk := Stored(next);
      state := next;
      r := Ok(next);
    }
  }

  /** Opening reads the record and claims no epoch. */
  method Open(path: string, file: StateFile, readFails: bool) returns (r: Result<Store, StateError>)
    ensures r.Ok? <==> !Blank(path) && !(readFails && !file.disk.Absent?) && !file.disk.Corrupt?
    ensures r.Ok? ==> fresh(r.value) && r.value.file == file && Loaded(file.disk) == Ok(r.value.state)
  {
    if Blank(path) {
      return Err(InvalidPath);
    }
    match file.disk {
      case Absent =>
        var s := new Store(file, NEVER_RUN);
        return Ok(s);
      case Corrupt =>
        return Err(DecodeFailed);
      case Stored(state) =>
        if readFails {
          return Err(ReadFailed);
        }
        var s := new Store(file, state);
        return Ok(s);
    }
  }

  // ----- whole lifetimes

  /** How an advance ends: written and returned, refused, or cut short by a crash. */
  datatype Ending = Completes | WriteFails | CrashesBeforeWrite | CrashesAfterWrite

  datatype Event =
    | Opens(readFails: bool)
    | Advances(reason: Reason, at: int, ending: Ending)
    | Stops
    | FileDamaged

  /** One record that reached the disk: why it was written, and when. */
  datatype Landing = Landing(reason: Reason, at: int)

  /** The disk, the running process's memory, every epoch a caller was ever given, and every record that was written. */
  datatype Life = Life(disk: Disk, memory: Option<State>, issued: seq<nat>, landed: seq<Landing>)

  const UNBORN := Life(Absent, None, [], [])

  function Happens(l: Life, e: Event): Life {
    match e
    case Opens(readFails) =>
      var loaded := Loaded(l.disk);
      if l.memory.Some? || loaded.Err? || (readFails && !l.disk.Absent?) then l
      else l.(memory := Some(loaded.value))
    case Advances(reason, at, ending) =>
      if l.memory.None? then l
      else
        var next := Advanced(l.memory.value, reason, at);
        if next.Err? then l
        else
          (match ending
           case Completes =>
             Life(Stored(next.value), Some(next.value), l.issued + [next.value.epoch], l.landed + [Landing(reason, at)])
           case WriteFails => l
           case CrashesBeforeWrite => l.(memory := None)
           case CrashesAfterWrite => Life(Stored(next.value), None, l.issued, l.landed + [Landing(reason, at)]))
    case Stops => l.(memory := None)
    case FileDamaged => l.(disk := Corrupt)
  }

  function Lived(events: seq<Event>): Life {
    if events == [] then UNBORN
    else Happens(Lived(events[..|events| - 1]), events[|events| - 1])
  }

  /** Every record counts its incarnations: the epoch is the sum of the two counters. */
  predicate Balanced(s: State) {
    s.epoch == s.processEpoch.count + s.activationEpoch.count
  }

  ghost predicate AtLeastIssued(s: State, issued: seq<nat>) {
    Balanced(s) && forall i :: 0 <= i < |issued| ==> issued[i] <= s.epoch
  }

  ghost predicate LifeInv(l: Life) {
    && (forall i, j :: 0 <= i < j < |l.issued| ==> l.issued[i] < l.issued[j])
    && (forall i :: 0 <= i < |l.issued| ==> 0 < l.issued[i])
    && (l.memory.Some? ==> AtLeastIssued(l.memory.value, l.issued))
    && (l.disk.Stored? ==> AtLeastIssued(l.disk.state, l.issued))
    && (l.disk.Absent? ==> l.issued == [])
  }

  lemma HappensKeepsInv(l: Life, e: Event)
    requires LifeInv(l)
    ensures LifeInv(Happens(l, e))
  {
  }

  /**
   Epochs are never reissued. Over any history of starts, advances, failed writes,
   crashes at any point of a write and damage to the file, the epochs callers were
   given increase strictly from one, and each equals the incarnations counted so far.
   */
  lemma {:induction false} EpochsStrictlyIncrease(events: seq<Event>)
    ensures LifeInv(Lived(events))
  {
    if events != [] {
      EpochsStrictlyIncrease(events[..|events| - 1]);
      HappensKeepsInv(Lived(events[..|events| - 1]), events[|events| - 1]);
    }
  }

  // ----- what the two counters count

  function Landings(landed: seq<Landing>, reason: Reason): nat {
    if landed == [] then 0
    else Landings(landed[..|landed| - 1], reason) + (if landed[|landed| - 1].reason == reason then 1 else 0)
  }

  /** When the last record of this reason was written, never at first. */
  function LastAt(landed: seq<Landing>, reason: Reason): int {
    if landed == [] then 0
    else if landed[|landed| - 1].reason == reason then landed[|landed| - 1].at
    else LastAt(landed[..|landed| - 1], reason)
  }

  /**
   A record that says what was written so far: how often a process started and how often one
   became active, and when last.
   */
  ghost predicate Recounts(s: State, landed: seq<Landing>) {
    && s.processEpoch == Counter(Landings(landed, ProcessStarted), LastAt(landed, ProcessStarted))
    && s.activationEpoch == Counter(Landings(landed, Activated), LastAt(landed, Activated))
    && s.epoch == |landed| && s.updatedAt == (if landed == [] then 0 else landed[|landed| - 1].at)
    && forall k :: 0 <= k < |landed| ==> landed[k].reason != OtherReason
  }

  lemma NextRecounts(s: State, reason: Reason, at: int, landed: seq<Landing>)
    requires Recounts(s, landed) && Advanced(s, reason, at).Ok?
    ensures Recounts(Advanced(s, reason, at).value, landed + [Landing(reason, at)])
  {
    assert (landed + [Landing(reason, at)])[..|landed|] == landed;
  }

  /**
   Over any history the record in memory and the one on disk count exactly what was ever
   written: each counter the advances of its own reason, and when the last of them was.
   */
  lemma {:induction false} CountersRecount(events: seq<Event>)
    ensures var l := Lived(events);
            && (l.memory.Some? ==> Recounts(l.memory.value, l.landed))
            && (l.disk.Stored? ==> Recounts(l.disk.state, l.landed))
            && (l.disk.Absent? ==> l.landed == [])
  {
    if events != [] {
      CountersRecount(events[..|events| - 1]);
      var l, e := Lived(events[..|events| - 1]), events[|events| - 1];
      if e.Advances? && l.memory.Some? && Advanced(l.memory.value, e.reason, e.at).Ok? {
        NextRecounts(l.memory.value, e.reason, e.at, l.landed);
      }
    }
  }

  /**
   What one event of a life adds: a record exactly if an advance for a known reason completed
   or crashed once written.
   */
  lemma WhatLands(l: Life, e: Event)
    ensures var l' := Happens(l, e);
            var lands := e.Advances? && l.memory.Some? && e.reason != OtherReason
                         && (e.ending.Completes? || e.ending.CrashesAfterWrite?);
            && l'.landed == l.landed + (if lands then [Landing(e.reason, e.at)] else [])
            && l'.issued == l.issued + (if lands && e.ending.Completes? then [l.memory.value.epoch + 1] else [])
  {
  }

  /**
   What a life keeps through an event. A process that starts takes up what the disk holds,
   or a record of no incarnations if there is no file, and fails to exactly if the file does
   not decode or cannot be read; stopping and crashing leave the disk and forget the memory;
   a failed write changes nothing.
   */
  lemma WhatIsKept(l: Life, e: Event)
    ensures var l' := Happens(l, e);
            match e
            case Opens(readFails) =>
              && l'.disk == l.disk
              && (l.memory.Some? ==> l'.memory == l.memory)
              && (l.memory.None? ==>
                    && (l'.memory.Some? <==> l.disk.Absent? || (l.disk.Stored? && !readFails))
                    && (l'.memory.Some? && l.disk.Absent? ==>
                          && l'.memory.value.epoch == 0
                          && l'.memory.value.processEpoch.count == 0
                          && l'.memory.value.activationEpoch.count == 0)
                    && (l'.memory.Some? && l.disk.Stored? ==> l'.memory.value == l.disk.state))
            case Advances(_, _, ending) =>
              && (l.memory.None? ==> l' == l)
              && (l'.landed == l.landed ==> l'.disk == l.disk)
              && (ending.WriteFails? ==> l' == l)
              && (ending.Completes? && l'.landed == l.landed ==> l' == l)
              && (ending.CrashesBeforeWrite? && l.memory.Some? && e.reason != OtherReason ==> l'.memory.None?)
              && (ending.CrashesAfterWrite? && l'.landed != l.landed ==> l'.memory.None? && l'.disk.Stored?)
              && (ending.Completes? && l'.landed != l.landed ==> l'.memory.Some? && l'.disk == Stored(l'.memory.value))
            case Stops => l'.disk == l.disk && l'.memory.None?
            case FileDamaged => l'.disk == Corrupt && l'.memory == l.memory
  {
  }

  /** A running process's memory is what its file holds, unless the file was damaged under it. */
  lemma {:induction false} MemoryIsTheDisk(events: seq<Event>)
    ensures var l := Lived(events);
            && (l.memory.Some? && l.disk.Stored? ==> l.memory.value == l.disk.state)
            && (l.memory.Some? && l.disk.Absent? ==> l.memory.value == NEVER_RUN)
  {
    if events != [] {
      MemoryIsTheDisk(events[..|events| - 1]);
    }
  }

  /** Two incarnations with a stop between them, and the epoch each is given. */
  lemma TwoIncarnations(at: int, later: int)
    ensures Lived([Opens(false), Advances(ProcessStarted, at, Completes), Stops,
                   Opens(false), Advances(Activated, later, Completes)]).issued == [1, 2]
  {
    var es := [Opens(false), Advances(ProcessStarted, at, Completes), Stops,
               Opens(false), Advances(Activated, later, Completes)];
    assert es[..4][..3] == es[..3] && es[..3][..2] == es[..2] && es[..2][..1] == es[..1] && es[..1][..0] == [];
    assert Lived([]) == UNBORN;
    assert Lived(es[..1]) == Happens(UNBORN, Opens(false));
    assert Lived(es[..2]) == Happens(Lived(es[..1]), es[1]);
    assert Lived(es[..3]) == Happens(Lived(es[..2]), es[2]);
    assert Lived(es[..4]) == Happens(Lived(es[..3]), es[3]);
  }
}
