/** What an observation becomes on the wire, and what a peer reads back. */
module Wire {
  import opened Options
  import opened Text
  import opened HealthView

  const VERSION := 1
  const MILLISECOND := 1_000_000
  const MAX_ERROR_BYTES := 512
  const MAX_MESSAGE_BYTES := 8192
  const MAX_LATENCY := 3_600_000 * MILLISECOND

  /** The fields of one message, before they are written as JSON. */
  datatype Message = Message(
    version: int, deployment: Deployment, machine: string, service: string, role: string, epoch: nat, sequence: nat,
    status: Status, checkedAt: int, latencyMs: int, failures: int, error: string)

  /** Why a receiver refuses a message it could parse. */
  datatype Reject = Oversize | OtherVersion | Foreign | Incomplete | Impossible

  /** A deployment's messages, and how many bytes each takes as JSON. */
  datatype Channel = Channel(deployment: Deployment, size: Message -> nat)

  function Replacements(n: nat): string {
    seq(n, _ => '\U{FFFD}')
  }

  /** The first bytes of a text as a reader decodes them: a character cut apart leaves a replacement for each byte. */
  function Cut(s: string, room: nat): string {
    if s == "" then ""
    else if Size(s[0]) <= room then [s[0]] + Cut(s[1..], room - Size(s[0]))
    else Replacements(room)
  }

  /** Whole milliseconds, toward zero. */
  function Milliseconds(duration: int): (ms: int)
    ensures duration >= 0 ==> 0 <= duration - ms * MILLISECOND < MILLISECOND
    ensures duration <= 0 ==> -MILLISECOND < duration - ms * MILLISECOND <= 0
  {
    if duration >= 0 then duration / MILLISECOND else -(-duration / MILLISECOND)
  }

  function Encode(c: Channel, o: Observation): Message {
    Message(VERSION, c.deployment, o.unit.machine, o.unit.service, o.role, o.epoch, o.sequence, o.status,
            o.detail.checkedAt, Milliseconds(o.detail.latency), o.detail.failures, Cut(o.detail.error, MAX_ERROR_BYTES))
  }

  predicate Unstated(s: Status) {
    s.Unrecognized? && Blank(s.text)
  }

  function Decode(c: Channel, m: Message): Result<Observation, Reject> {
    if c.size(m) > MAX_MESSAGE_BYTES then Err(Oversize)
    else if m.version != VERSION then Err(OtherVersion)
    else if m.deployment != c.deployment then Err(Foreign)
    else if Blank(m.machine) || Blank(m.service) || Blank(m.role) || Unstated(m.status) then Err(Incomplete)
    else if m.epoch == 0 || m.sequence == 0 || m.checkedAt == 0 then Err(Impossible)
    else if m.latencyMs < 0 || m.latencyMs > Milliseconds(MAX_LATENCY) || m.failures < 0 then Err(Impossible)
    else Ok(Observation(UnitKey(m.machine, m.service), m.role, m.epoch, m.sequence, m.status,
                        Detail(m.checkedAt, m.latencyMs * MILLISECOND, m.failures, m.error)))
  }

  // ----- what arrives

  /** An observation with its latency in whole milliseconds and its error cut short. */
  function Wired(o: Observation): Observation {
    o.(detail := o.detail.(latency := Milliseconds(o.detail.latency) * MILLISECOND,
                           error := Cut(o.detail.error, MAX_ERROR_BYTES)))
  }

  /** What a worker hands to its publisher, stamped. */
  ghost predicate Reported(o: Observation) {
    && !Blank(o.unit.machine) && !Blank(o.unit.service) && !Blank(o.role) && o.status.Observable()
    && o.epoch > 0 && o.sequence > 0 && o.detail.checkedAt != 0 && o.detail.latency >= 0 && o.detail.failures >= 0
  }

  /**
   What a peer reads of a report: itself with whole milliseconds and a short error, if its
   message is not too large and its attempt lasted less than an hour and a millisecond.
   A longer one is refused by every peer, though a valid timeout may be that long.
   */
  lemma RoundTrip(c: Channel, o: Observation)
    requires Reported(o)
    ensures Decode(c, Encode(c, o)) ==
              if c.size(Encode(c, o)) > MAX_MESSAGE_BYTES then Err(Oversize)
              else if o.detail.latency < MAX_LATENCY + MILLISECOND then Ok(Wired(o)) else Err(Impossible)
  {
  }

  /** What a peer reads of a report it takes: who, what and when are as sent, the latency in whole milliseconds. */
  lemma WhatIsRead(c: Channel, o: Observation)
    requires Reported(o) && Decode(c, Encode(c, o)).Ok?
    ensures var d := Decode(c, Encode(c, o)).value;
            && d.unit == o.unit && d.role == o.role && d.epoch == o.epoch
            && d.sequence == o.sequence && d.status == o.status
            && d.detail.checkedAt == o.detail.checkedAt && d.detail.failures == o.detail.failures
            && d.detail.latency <= o.detail.latency < d.detail.latency + 1_000_000 && d.detail.latency % 1_000_000 == 0
  {
    RoundTrip(c, o);
  }

  /** A message is refused for each of these, in this order, and for nothing else. */
  lemma RefusedExactlyWhen(c: Channel, m: Message)
    ensures var r := Decode(c, m);
            var incomplete := Trim(m.machine) == "" || Trim(m.service) == "" || Trim(m.role) == ""
                              || (m.status.Unrecognized? && Trim(m.status.text) == "");
            var impossible := m.epoch == 0 || m.sequence == 0 || m.checkedAt == 0
                              || m.latencyMs < 0 || m.latencyMs > 3_600_000 || m.failures < 0;
            if c.size(m) > 8192 then r == Err(Oversize)
            else if m.version != 1 then r == Err(OtherVersion)
            else if m.deployment != c.deployment then r == Err(Foreign)
            else if incomplete then r == Err(Incomplete)
            else if impossible then r == Err(Impossible)
            else
              && r.Ok? && r.value.unit == UnitKey(m.machine, m.service) && r.value.role == m.role
              && r.value.epoch == m.epoch && r.value.sequence == m.sequence && r.value.status == m.status
              && r.value.detail == Detail(m.checkedAt, m.latencyMs * 1_000_000, m.failures, m.error)
  {
  }

  /** A message carries this version and the sender's deployment, and the report it is of. */
  lemma WhatIsSent(c: Channel, o: Observation)
    ensures var m := Encode(c, o);
            && m.version == 1 && m.deployment == c.deployment
            && m.machine == o.unit.machine && m.service == o.unit.service && m.role == o.role
            && m.epoch == o.epoch && m.sequence == o.sequence && m.status == o.status
            && m.checkedAt == o.detail.checkedAt && m.failures == o.detail.failures
  {
  }

  // ----- how large a message gets

  /** The bytes of the names every message of a unit and observer repeats. */
  function NameBytes(d: Deployment, unit: UnitKey, role: string): nat {
    Bytes(d.project) + Bytes(d.environment) + Bytes(d.site) + Bytes(unit.machine) + Bytes(unit.service) + Bytes(role)
  }

  function TextBytes(m: Message): nat {
    NameBytes(m.deployment, UnitKey(m.machine, m.service), m.role) + Bytes(m.error)
    + (if m.status.Unrecognized? then Bytes(m.status.text) else 0)
  }

  /** The counters are what 64 bits hold. */
  predicate In64Bits(m: Message) {
    m.epoch < 0x1_0000_0000_0000_0000 && m.sequence < 0x1_0000_0000_0000_0000 && m.failures < 0x8000_0000_0000_0000
  }

  /**
   What is known of JSON: a text takes at least its own bytes, and at most six for each;
   keys, punctuation, numbers and the instant take at most 512 together.
   */
  ghost predicate Honest(c: Channel) {
    && (forall m :: TextBytes(m) <= c.size(m))
    && (forall m :: In64Bits(m) ==> c.size(m) <= 512 + 6 * TextBytes(m))
  }

  lemma {:induction false} BytesOfReplacements(n: nat)
    ensures Bytes(Replacements(n)) == 3 * n
  {
    if n > 0 {
      assert Replacements(n)[1..] == Replacements(n - 1);
      BytesOfReplacements(n - 1);
    }
  }

  /** What is cut short takes its room, but for what stands for a character cut apart. */
  lemma {:induction false} CutFits(s: string, room: nat)
    ensures Bytes(Cut(s, room)) <= room + 6
  {
    if s != "" {
      if Size(s[0]) <= room {
        CutFits(s[1..], room - Size(s[0]));
        assert Cut(s, room)[1..] == Cut(s[1..], room - Size(s[0]));
      } else {
        BytesOfReplacements(room);
      }
    }
  }

  const NAME_BUDGET := 762

  /** Names within the budget leave room for any error text. */
  lemma ShortNamesFit(c: Channel, o: Observation)
    requires Honest(c) && Reported(o) && In64Bits(Encode(c, o))
    requires NameBytes(c.deployment, o.unit, o.role) <= NAME_BUDGET
    ensures c.size(Encode(c, o)) <= MAX_MESSAGE_BYTES
  {
    CutFits(o.detail.error, MAX_ERROR_BYTES);
  }

  /** Names longer than a message are never heard of, whatever is reported. */
  lemma LongNamesAreNeverHeard(c: Channel, o: Observation)
    requires Honest(c) && NameBytes(c.deployment, o.unit, o.role) > MAX_MESSAGE_BYTES
    ensures Decode(c, Encode(c, o)) == Err(Oversize)
  {
    assert TextBytes(Encode(c, o)) <= c.size(Encode(c, o));
  }

  ghost predicate Carried(c: Channel, o: Observation) {
    Decode(c, Encode(c, o)).Ok?
  }

  /** A report of this unit by this observer, of an attempt within the timeout. */
  ghost predicate Possible(c: Channel, unit: UnitKey, role: string, timeout: nat, o: Observation) {
    Reported(o) && In64Bits(Encode(c, o)) && o.unit == unit && o.role == role && o.detail.latency <= timeout
  }

  /**
   Validation lets a timeout be any length below its interval. With names within the budget,
   peers hear of every attempt if and only if the timeout is below this bound.
   */
  lemma EveryReportIsCarriedExactlyWhen(c: Channel, unit: UnitKey, role: string, timeout: nat)
    requires Honest(c) && NameBytes(c.deployment, unit, role) <= NAME_BUDGET
    requires !Blank(unit.machine) && !Blank(unit.service) && !Blank(role)
    ensures (forall o :: Possible(c, unit, role, timeout, o) ==> Carried(c, o)) <==> timeout < MAX_LATENCY + MILLISECOND
  {
    var slowest := Observation(unit, role, 1, 1, Unhealthy, Detail(1, timeout, 1, ""));
    assert Possible(c, unit, role, timeout, slowest);
    RoundTrip(c, slowest);
    ShortNamesFit(c, slowest);
    forall o | Possible(c, unit, role, timeout, o)
      ensures Carried(c, o) <==> o.detail.latency < MAX_LATENCY + MILLISECOND
    {
      RoundTrip(c, o);
      ShortNamesFit(c, o);
    }
    assert Carried(c, slowest) <==> timeout < MAX_LATENCY + MILLISECOND;
  }

  // ----- what survives the cut

  /**
   A text is cut to the longest front that fits its bytes, and where a character is cut
   apart there is a replacement for each byte of it that fit.
   */
  lemma {:induction false} CutMeans(s: string, room: nat) returns (k: nat)
    ensures k <= |s| && Bytes(s[..k]) <= room
    ensures k < |s| ==> Bytes(s[..k]) + Size(s[k]) > room
    ensures Cut(s, room) == s[..k] + (if k < |s| then seq(room - Bytes(s[..k]), _ => '\U{FFFD}') else "")
  {
    k := 0;
    assert s[..0] == "";
    if s != "" && Size(s[0]) <= room {
      k := CutMeans(s[1..], room - Size(s[0]));
      assert s[..k + 1] == [s[0]] + s[1..][..k];
      k := k + 1;
    }
  }

  /** The text fits up to k, and the rest is as many replacement characters as there were bytes of room. */
  ghost predicate PatchedAt(s: string, room: nat, k: nat) {
    && k < |s| && Bytes(s[..k]) + |s| - k == room && |s| - k < Size(s[k])
    && forall i :: k <= i < |s| ==> s[i] == '\U{FFFD}'
  }

  ghost predicate Patched(s: string, room: nat) {
    exists k: nat :: PatchedAt(s, room, k)
  }

  lemma PatchedAfter(s: string, room: nat, k: nat)
    requires s != "" && Size(s[0]) <= room
    ensures PatchedAt(s, room, k + 1) <==> PatchedAt(s[1..], room - Size(s[0]), k)
    ensures !PatchedAt(s, room, 0)
  {
    if k + 1 < |s| {
      assert s[..k + 1][1..] == s[1..][..k];
    }
  }

  lemma PatchedTail(s: string, room: nat)
    requires s != "" && Size(s[0]) <= room
    ensures Patched(s, room) <==> Patched(s[1..], room - Size(s[0]))
  {
    if Patched(s, room) {
      var k: nat :| PatchedAt(s, room, k);
      PatchedAfter(s, room, if k > 0 then k - 1 else 0);
    }
    if Patched(s[1..], room - Size(s[0])) {
      var k: nat :| PatchedAt(s[1..], room - Size(s[0]), k);
      PatchedAfter(s, room, k);
    }
  }

  lemma PatchedHead(s: string, room: nat)
    requires s != "" && Size(s[0]) > room
    ensures Patched(s, room) <==> s == Replacements(room)
  {
    assert s[..0] == "";
    if s == Replacements(room) {
      assert PatchedAt(s, room, 0);
    }
  }

  lemma CutAfter(s: string, room: nat)
    requires s != "" && Size(s[0]) <= room
    ensures Cut(s, room) == s <==> Cut(s[1..], room - Size(s[0])) == s[1..]
  {
    assert Cut(s, room)[1..] == Cut(s[1..], room - Size(s[0]));
    assert s == [s[0]] + s[1..];
  }

  /** A text survives exactly if it fits, or ends in the very replacements that cutting leaves. */
  lemma {:induction false} CutKeepsExactlyWhen(s: string, room: nat)
    ensures Cut(s, room) == s <==> Bytes(s) <= room || Patched(s, room)
  {
    if s != "" {
      if Size(s[0]) <= room {
        CutKeepsExactlyWhen(s[1..], room - Size(s[0]));
        PatchedTail(s, room);
        CutAfter(s, room);
      } else {
        PatchedHead(s, room);
      }
    }
  }

  /**
   A peer reads exactly what was sent if and only if the latency is in whole milliseconds and
   the error survives the cut.
   */
  lemma UnchangedExactlyWhen(o: Observation)
    ensures Wired(o) == o
            <==> && o.detail.latency % MILLISECOND == 0
                 && (Bytes(o.detail.error) <= MAX_ERROR_BYTES || Patched(o.detail.error, MAX_ERROR_BYTES))
  {
    CutKeepsExactlyWhen(o.detail.error, MAX_ERROR_BYTES);
  }
}
