/**
 From the epoch on disk to the slot in a peer's view. An observer is a succession of
 processes; each captured the epoch its start advanced to and stamped its reports from
 sequence one. The views' fencing relies on those stamps, and this is why it may.
 */
module Pipeline {
  import opened Options
  import opened HealthView
  import opened HealthFabric
  import opened Publishing
  import opened Convergence
  import opened Wire
  import State = InstanceState

  /** One process of an observer: who it was, and everything its publisher accepted. */
  datatype Incarnation = Incarnation(id: Identity, accepted: seq<Observation>)

  /** accepted is what some run of this process's publisher took. */
  ghost predicate Published(inc: Incarnation) {
    exists states: seq<Fabric>, steps: seq<Step>, i :: IsRun(inc.id, states, steps) && 0 <= i < |states|
                               && states[i].accepted == inc.accepted
  }

  /** The observer's processes carry, in order, epochs its durable record handed out. */
  ghost predicate Lineage(events: seq<State.Event>, machine: string, role: string, incs: seq<Incarnation>) {
    && (forall k :: 0 <= k < |incs| ==> incs[k].id.machine == machine && incs[k].id.role == role && Published(incs[k]))
    && exists at: seq<nat> :: EpochsAt(State.Lived(events).issued, incs, at)
  }

  ghost predicate EpochsAt(issued: seq<nat>, incs: seq<Incarnation>, at: seq<nat>) {
    && |at| == |incs|
    && (forall k :: 0 <= k < |at| ==> at[k] < |issued| && issued[at[k]] == incs[k].id.epoch)
    && (forall j, k :: 0 <= j < k < |at| ==> at[j] < at[k])
  }

  lemma LaterIncarnationsHaveGreaterEpochs(events: seq<State.Event>, machine: string, role: string,
                                           incs: seq<Incarnation>, j: nat, k: nat)
    requires Lineage(events, machine, role, incs) && j < k < |incs|
    ensures incs[j].id.epoch < incs[k].id.epoch
  {
    State.EpochsStrictlyIncrease(events);
    var at :| EpochsAt(State.Lived(events).issued, incs, at);
    assert at[j] < at[k];
  }

  lemma PublishedStamps(inc: Incarnation, i: nat)
    requires Published(inc) && i < |inc.accepted|
    ensures inc.accepted[i].sequence == i + 1 && inc.accepted[i].epoch == inc.id.epoch
    ensures inc.accepted[i].unit.machine == inc.id.machine && inc.accepted[i].role == inc.id.role
  {
    var states: seq<Fabric>, steps: seq<Step>, n :| IsRun(inc.id, states, steps) && 0 <= n < |states|
                            && states[n].accepted == inc.accepted;
    RunKeepsInv(inc.id, states, steps, n);
    assert StampInv(inc.id, states[n]);
  }

  /**
   Stamps increase over an observer's whole life, across restarts and crashes: whatever
   was accepted later is newer. In particular the first report of a restarted observer
   beats everything its earlier processes said, and no stamp is used twice.
   */
  lemma LaterReportsAreNewer(events: seq<State.Event>, machine: string, role: string, incs: seq<Incarnation>,
                             j: nat, a: nat, k: nat, b: nat)
    requires Lineage(events, machine, role, incs)
    requires j < |incs| && a < |incs[j].accepted| && k < |incs| && b < |incs[k].accepted|
    ensures OlderThan(incs[j].accepted[a], incs[k].accepted[b]) <==> j < k || (j == k && a < b)
  {
    PublishedStamps(incs[j], a);
    PublishedStamps(incs[k], b);
    if j < k {
      LaterIncarnationsHaveGreaterEpochs(events, machine, role, incs, j, k);
    } else if k < j {
      LaterIncarnationsHaveGreaterEpochs(events, machine, role, incs, k, j);
    }
  }

  /** An observer of the site, as its machine and role name it. */
  datatype Observer = Observer(events: seq<State.Event>, incs: seq<Incarnation>)

  ghost predicate SaidBy(x: Observer, o: Observation) {
    exists k, a :: 0 <= k < |x.incs| && 0 <= a < |x.incs[k].accepted| && x.incs[k].accepted[a] == o
  }

  type Name = (string, string)

  function NameOf(o: Observation): Name {
    (o.unit.machine, o.role)
  }

  /** What reaches me of a report: my own as I stamped it, any other as it comes off the wire. */
  function Image(me: Name, o: Observation): Observation {
    if NameOf(o) == me then o else Wired(o)
  }

  /** An observer of the site accepted o, and it arrived at me as d. */
  ghost predicate Heard(site: map<Name, Observer>, channel: Channel, me: Name, o: Observation, d: Observation) {
    && NameOf(o) in site && SaidBy(site[NameOf(o)], o)
    && (if NameOf(o) == me then d == o else Decode(channel, Encode(channel, o)) == Ok(d))
  }

  lemma HeardIsImage(site: map<Name, Observer>, channel: Channel, me: Name, o: Observation, d: Observation)
    requires Heard(site, channel, me, o, d)
    ensures d == Image(me, o)
  {
  }

  /** Every delivery is of a report some observer of the site accepted. */
  ghost predicate FromTheSite(site: map<Name, Observer>, channel: Channel, me: Name, ds: seq<Delivery>) {
    && (forall key :: key in site ==> Lineage(site[key].events, key.0, key.1, site[key].incs))
    && (forall i :: 0 <= i < |ds| ==> exists o :: Heard(site, channel, me, o, ds[i].o))
  }

  /** The history delivers o to me. */
  ghost predicate Hears(site: map<Name, Observer>, channel: Channel, me: Name, ds: seq<Delivery>, o: Observation) {
    exists i :: 0 <= i < |ds| && Heard(site, channel, me, o, ds[i].o)
  }

  lemma SameStampSameReport(x: Observer, machine: string, role: string, o: Observation, o': Observation)
    requires Lineage(x.events, machine, role, x.incs) && SaidBy(x, o) && SaidBy(x, o')
    requires o.epoch == o'.epoch && o.sequence == o'.sequence
    ensures o == o'
  {
    var k, a :| 0 <= k < |x.incs| && 0 <= a < |x.incs[k].accepted| && x.incs[k].accepted[a] == o;
    var k', a' :| 0 <= k' < |x.incs| && 0 <= a' < |x.incs[k'].accepted| && x.incs[k'].accepted[a'] == o';
    LaterReportsAreNewer(x.events, machine, role, x.incs, k, a, k', a');
    LaterReportsAreNewer(x.events, machine, role, x.incs, k', a', k, a);
  }

  /** Two accepted reports that arrive with one stamp, wherever they arrive, are one report. */
  lemma SameStampHeard(site: map<Name, Observer>, channel: Channel, me: Name, o: Observation, d: Observation,
                       me': Name, o': Observation, d': Observation)
    requires forall key :: key in site ==> Lineage(site[key].events, key.0, key.1, site[key].incs)
    requires Heard(site, channel, me, o, d) && Heard(site, channel, me', o', d')
    requires d.unit == d'.unit && d.role == d'.role && d.epoch == d'.epoch && d.sequence == d'.sequence
    ensures o == o'
  {
    HeardIsImage(site, channel, me, o, d);
    HeardIsImage(site, channel, me', o', d');
    var key := NameOf(o);
    SameStampSameReport(site[key], key.0, key.1, o, o');
  }

  /** Any history of deliveries that came from the site's publishers, however mangled, is genuine. */
  lemma TheSiteIsGenuine(site: map<Name, Observer>, channel: Channel, me: Name, ds: seq<Delivery>)
    requires FromTheSite(site, channel, me, ds)
    ensures Genuine(ds)
  {
    forall i, j | 0 <= i < |ds| && 0 <= j < |ds|
                  && ds[i].o.unit == ds[j].o.unit && ds[i].o.role == ds[j].o.role
                  && ds[i].o.epoch == ds[j].o.epoch && ds[i].o.sequence == ds[j].o.sequence
      ensures ds[i].o == ds[j].o
    {
      var o :| Heard(site, channel, me, o, ds[i].o);
      var o' :| Heard(site, channel, me, o', ds[j].o);
      SameStampHeard(site, channel, me, o, ds[i].o, me, o', ds[j].o);
      HeardIsImage(site, channel, me, o, ds[i].o);
      HeardIsImage(site, channel, me, o', ds[j].o);
    }
  }

  /**
   An instance never drops what it just stamped. One worker probes a service and applies
   each report before its next, and the connection does not echo, so all the view has of
   this observer about this service is older; the report is kept exactly when the
   inventory has a slot for it.
   */
  lemma {:induction false} OwnReportsAreKept(x: Observer, machine: string, role: string, units: Inventory,
                                             ds: seq<Delivery>, k: nat, b: nat)
    requires Lineage(x.events, machine, role, x.incs) && k < |x.incs| && b < |x.incs[k].accepted|
    requires forall i :: 0 <= i < |ds| && ds[i].o.unit == x.incs[k].accepted[b].unit && ds[i].o.role == role ==>
               exists j, a :: 0 <= j < |x.incs| && 0 <= a < |x.incs[j].accepted|
                              && (j < k || (j == k && a < b)) && x.incs[j].accepted[a] == ds[i].o
    ensures Judge(units, Folded(units, ds).slots, x.incs[k].accepted[b]) == Kept
       <==> Placeable(units, x.incs[k].accepted[b])
  {
    var o := x.incs[k].accepted[b];
    PublishedStamps(x.incs[k], b);
    forall i | 0 <= i < |ds| && For(units, ds[i].o, o.unit, o.role)
      ensures OlderThan(ds[i].o, o)
    {
      var j, a :| 0 <= j < |x.incs| && 0 <= a < |x.incs[j].accepted|
                  && (j < k || (j == k && a < b)) && x.incs[j].accepted[a] == ds[i].o;
      LaterReportsAreNewer(x.events, machine, role, x.incs, j, a, k, b);
    }
    KeptExactlyWhenNewer(units, ds, o);
  }

  function Told(o: Observation): Said {
    Said(o.epoch, o.sequence, o.status, o.detail)
  }

  /** The slot holds what o became on its way here. */
  ghost predicate HoldsImage(slot: Option<Report>, me: Name, o: Observation) {
    SaidOf(slot) == Some(Told(Image(me, o)))
  }

  /** What a slot holds is the image of an accepted report. */
  lemma SlotHoldsAnImage(site: map<Name, Observer>, channel: Channel, units: Inventory, me: Name, ds: seq<Delivery>,
                         key: UnitKey, role: string) returns (o: Observation, i: nat)
    requires FromTheSite(site, channel, me, ds) && SlotAfter(units, ds, key, role).Some?
    ensures NewestAt(units, ds, key, role, i) && Heard(site, channel, me, o, ds[i].o)
    ensures HoldsImage(SlotAfter(units, ds, key, role), me, o) && NameOf(o) == (key.machine, role)
  {
    i := SlotHoldsTheNewest(units, ds, key, role);
    o :| Heard(site, channel, me, o, ds[i].o);
    HeardIsImage(site, channel, me, o, ds[i].o);
  }

  /** Both heard the same reports for this slot. */
  ghost predicate HeardAlike(site: map<Name, Observer>, channel: Channel, units: Inventory, me: Name, ds: seq<Delivery>,
                             me': Name, ds': seq<Delivery>, key: UnitKey, role: string) {
    forall o :: For(units, o, key, role) ==> (Hears(site, channel, me, ds, o) <==> Hears(site, channel, me', ds', o))
  }

  lemma SameStampAccepted(site: map<Name, Observer>, o: Observation, o': Observation)
    requires forall key :: key in site ==> Lineage(site[key].events, key.0, key.1, site[key].incs)
    requires NameOf(o) in site && NameOf(o) == NameOf(o') && SaidBy(site[NameOf(o)], o) && SaidBy(site[NameOf(o)], o')
    requires o.epoch == o'.epoch && o.sequence == o'.sequence
    ensures o == o'
  {
    var key := NameOf(o);
    SameStampSameReport(site[key], key.0, key.1, o, o');
  }

  /** Once a report was heard, what the slot holds is no older. */
  lemma NothingOlder(site: map<Name, Observer>, channel: Channel, units: Inventory, me: Name, ds: seq<Delivery>,
                     key: UnitKey, role: string, o: Observation) returns (held: Observation)
    requires FromTheSite(site, channel, me, ds) && Hears(site, channel, me, ds, o) && For(units, o, key, role)
    ensures HoldsImage(SlotAfter(units, ds, key, role), me, held) && !OlderThan(held, o)
    ensures Hears(site, channel, me, ds, held) && For(units, held, key, role)
    ensures NameOf(held) == NameOf(o) && NameOf(o) in site && SaidBy(site[NameOf(o)], o)
            && SaidBy(site[NameOf(o)], held)
  {
    var k :| 0 <= k < |ds| && Heard(site, channel, me, o, ds[k].o);
    HeardIsImage(site, channel, me, o, ds[k].o);
    assert For(units, ds[k].o, key, role);
    var n := SlotHoldsTheNewest(units, ds, key, role);
    var i;
    held, i := SlotHoldsAnImage(site, channel, units, me, ds, key, role);
    HeardIsImage(site, channel, me, held, ds[i].o);
    assert !OlderThan(ds[i].o, ds[k].o);
  }

  lemma HeldIsHeard(site: map<Name, Observer>, channel: Channel, units: Inventory, me: Name, ds: seq<Delivery>,
                    key: UnitKey, role: string) returns (o: Observation)
    requires FromTheSite(site, channel, me, ds) && SlotAfter(units, ds, key, role).Some?
    ensures HoldsImage(SlotAfter(units, ds, key, role), me, o) && Hears(site, channel, me, ds, o)
            && For(units, o, key, role)
    ensures NameOf(o) == (key.machine, role)
  {
    var i;
    o, i := SlotHoldsAnImage(site, channel, units, me, ds, key, role);
    HeardIsImage(site, channel, me, o, ds[i].o);
  }

  lemma HeardToo(site: map<Name, Observer>, channel: Channel, units: Inventory, me: Name, ds: seq<Delivery>,
                 me': Name, ds': seq<Delivery>, key: UnitKey, role: string, o: Observation)
    requires HeardAlike(site, channel, units, me, ds, me', ds', key, role)
             || HeardAlike(site, channel, units, me', ds', me, ds, key, role)
    requires For(units, o, key, role) && Hears(site, channel, me, ds, o)
    ensures Hears(site, channel, me', ds', o)
  {
  }

  lemma HeldOnce(slot: Option<Report>, me: Name, o: Observation, o': Observation)
    requires HoldsImage(slot, me, o) && HoldsImage(slot, me, o')
    ensures o.epoch == o'.epoch && o.sequence == o'.sequence
  {
  }

  /** If one slot is filled, so is the other, by the same report. */
  lemma SameNewest(site: map<Name, Observer>, channel: Channel, units: Inventory, me: Name, ds: seq<Delivery>,
                   me': Name, ds': seq<Delivery>, key: UnitKey, role: string) returns (o: Observation)
    requires FromTheSite(site, channel, me, ds) && FromTheSite(site, channel, me', ds')
    requires HeardAlike(site, channel, units, me, ds, me', ds', key, role)
    requires SlotAfter(units, ds, key, role).Some?
    ensures HoldsImage(SlotAfter(units, ds, key, role), me, o) && HoldsImage(SlotAfter(units, ds', key, role), me', o)
    ensures NameOf(o) == (key.machine, role)
  {
    o := HeldIsHeard(site, channel, units, me, ds, key, role);
    HeardToo(site, channel, units, me, ds, me', ds', key, role, o);
    var other := NothingOlder(site, channel, units, me', ds', key, role, o);
    HeardToo(site, channel, units, me', ds', me, ds, key, role, other);
    var again := NothingOlder(site, channel, units, me, ds, key, role, other);
    HeldOnce(SlotAfter(units, ds, key, role), me, o, again);
    SameStampAccepted(site, o, other);
  }

  /** The observer itself keeps all it measured; anyone else what the wire carries. */
  function Agreed(s: Said): (nat, nat, Status, int, int) {
    (s.epoch, s.sequence, s.status, s.detail.checkedAt, s.detail.failures)
  }

  /**
   Two instances that heard the same reports hold the same report of a slot: the same
   stamp, status, instant and failure count. Its latency and error are the same too, unless
   one of the two is the observer and the wire changes what it said.
   */
  lemma TheSiteConverges(site: map<Name, Observer>, channel: Channel, units: Inventory, me: Name, ds: seq<Delivery>,
                         me': Name, ds': seq<Delivery>, key: UnitKey, role: string)
    requires FromTheSite(site, channel, me, ds) && FromTheSite(site, channel, me', ds')
    requires HeardAlike(site, channel, units, me, ds, me', ds', key, role)
    ensures var a, b := SaidOf(SlotAfter(units, ds, key, role)), SaidOf(SlotAfter(units, ds', key, role));
            && (a.Some? <==> b.Some?)
            && (a.Some? ==>
                  && Agreed(a.value) == Agreed(b.value)
                  && exists o :: && HoldsImage(SlotAfter(units, ds, key, role), me, o)
                                 && HoldsImage(SlotAfter(units, ds', key, role), me', o)
                                 && (a == b <==> || ((me == (key.machine, role)) <==> (me' == (key.machine, role)))
                                                 || Wired(o) == o))
  {
    var a, b := SlotAfter(units, ds, key, role), SlotAfter(units, ds', key, role);
    if a.Some? {
      var o := SameNewest(site, channel, units, me, ds, me', ds', key, role);
    } else if b.Some? {
      var o := SameNewest(site, channel, units, me', ds', me, ds, key, role);
    }
  }
}
