/**
 What an instance says about itself, and what its peer makes of it. A service being down is
 no reason to move ownership, so what probes find must not reach either answer.
 */
module PlatformHealth {
  import opened Options
  import opened Sorting
  import opened HealthView
  import opened Convergence

  datatype Answer = Fine | Impaired | Down

  /** An instance's checks, None where the dependency is not composed. */
  datatype Checks = Checks(eventFabric: Option<bool>, serviceMonitor: Option<bool>)

  datatype HealthResponse = HealthResponse(status: Answer, checks: Checks)

  // ----- this process's own monitor

  ghost predicate OwnReportsCurrent(machine: string, role: string, snapshot: seq<UnitSnapshot>) {
    forall i :: 0 <= i < |snapshot| && snapshot[i].unit.key.machine == machine ==> role !in snapshot[i].stale
  }

  method ServiceMonitorStatus(machine: string, role: string, snapshot: seq<UnitSnapshot>) returns (ok: bool)
    ensures ok <==> OwnReportsCurrent(machine, role, snapshot)
  {
    for i := 0 to |snapshot|
      invariant OwnReportsCurrent(machine, role, snapshot[..i])
    {
      if snapshot[i].unit.key.machine != machine {
        continue;
      }
      if role in snapshot[i].stale {
        return false;
      }
    }
    ok := true;
  }

  function StatusOf(c: Checks): Answer {
    if c.eventFabric == Some(false) || c.serviceMonitor == Some(false) then Impaired else Fine
  }

  /** fabric is how the broker round trip went; snapshot is what the view renders now. */
  method NewHealth(fabric: Option<bool>, snapshot: Option<seq<UnitSnapshot>>, machine: string, role: string)
    returns (h: HealthResponse)
    ensures h.checks.eventFabric == fabric
    ensures h.checks.serviceMonitor.Some? <==> snapshot.Some?
    ensures snapshot.Some? ==>
            (h.checks.serviceMonitor == Some(true) <==> OwnReportsCurrent(machine, role, snapshot.value))
    ensures h.status == StatusOf(h.checks)
  {
    var status := Fine;
    var checks := Checks(None, None);
    if fabric.Some? {
      checks := checks.(eventFabric := Some(true));
      if !fabric.value {
        checks := checks.(eventFabric := Some(false));
        status := Impaired;
      }
    }
    if snapshot.Some? {
      var ok := ServiceMonitorStatus(machine, role, snapshot.value);
      checks := checks.(serviceMonitor := Some(ok));
      if !ok {
        status := Impaired;
      }
    }
    h := HealthResponse(status, checks);
  }

  /** An instance is impaired exactly when a composed check failed, and is never down. */
  lemma ImpairedExactlyWhen(c: Checks)
    ensures StatusOf(c) == Impaired <==> (c.eventFabric.Some? && !c.eventFabric.value)
                                         || (c.serviceMonitor.Some? && !c.serviceMonitor.value)
    ensures StatusOf(c) != Down
  {
  }

  // ----- the peer's gate

  /** What asking a peer for its health yields. */
  datatype Reply = NoReply | Refused | Garbled | Answered(h: HealthResponse)

  /** The gate a Passive instance promotes through: every way a peer can no longer serve. */
  predicate PeerHealthy(r: Reply) {
    match r
    case NoReply => false
    case Refused => false
    case Garbled => true
    case Answered(h) => h.status != Down
  }

  // ----- rendering a site

  function SiteSnapshot(units: Inventory, order: seq<UnitKey>, slots: Slots, now: int): seq<UnitSnapshot>
    requires forall i :: 0 <= i < |order| ==> order[i] in units
  {
    seq(|order|, i requires 0 <= i < |order| => Rendered(slots, units[order[i]], now))
  }

  lemma {:induction false} StaleMeans(slots: Slots, u: Unit, roles: seq<string>, now: int, role: string)
    ensures role in StaleRoles(slots, u, roles, now)
            <==> role in roles && SlotOf(slots, u.key, role).Some? && !Fresh(u, SlotOf(slots, u.key, role).value, now)
  {
    if roles != [] {
      var rest, last := roles[..|roles| - 1], roles[|roles| - 1];
      StaleMeans(slots, u, rest, now, role);
      assert roles == rest + [last];
    }
  }

  /** A unit counts an expected observer stale exactly when that observer's slot holds an expired report. */
  lemma RenderedStale(slots: Slots, u: Unit, now: int, role: string)
    ensures role in Rendered(slots, u, now).stale
            <==> role in u.observers && SlotOf(slots, u.key, role).Some?
                 && !Fresh(u, SlotOf(slots, u.key, role).value, now)
  {
    var roles := Sort(u.observers, StringLeq);
    StaleMeans(slots, u, roles, now, role);
    StringOrder();
    SortKeepsElements(u.observers, StringLeq);
  }

  // ----- what probes found does not show

  /** The same report, but for what the probe found. */
  predicate SameButFindings(d: Delivery, d': Delivery) {
    && d.at == d'.at && d.o.unit == d'.o.unit && d.o.role == d'.o.role
    && d.o.epoch == d'.o.epoch && d.o.sequence == d'.o.sequence
    && d.o.status.Observable() && d'.o.status.Observable()
  }

  ghost predicate SameHistory(ds: seq<Delivery>, ds': seq<Delivery>) {
    |ds| == |ds'| && forall i :: 0 <= i < |ds| ==> SameButFindings(ds[i], ds'[i])
  }

  predicate SameFence(r: Option<Report>, r': Option<Report>) {
    if r.None? || r'.None? then r.None? && r'.None?
    else
      && r.value.epoch == r'.value.epoch && r.value.sequence == r'.value.sequence
      && r.value.receivedAt == r'.value.receivedAt
  }

  ghost predicate SameFences(slots: Slots, slots': Slots) {
    forall key, role :: SameFence(SlotOf(slots, key, role), SlotOf(slots', key, role))
  }

  lemma SlotAfterApply(units: Inventory, b: Books, d: Delivery, key: UnitKey, role: string)
    ensures SlotOf(Applied(units, b, d.o, d.at).slots, key, role)
            == if Judge(units, b.slots, d.o) == Kept && d.o.unit == key && d.o.role == role
               then Some(ReportOf(d.o, d.at))
               else SlotOf(b.slots, key, role)
  {
  }

  lemma ApplyKeepsFences(units: Inventory, b: Books, b': Books, d: Delivery, d': Delivery)
    requires SameFences(b.slots, b'.slots) && SameButFindings(d, d')
    ensures SameFences(Applied(units, b, d.o, d.at).slots, Applied(units, b', d'.o, d'.at).slots)
    ensures Judge(units, b.slots, d.o) == Judge(units, b'.slots, d'.o)
  {
    assert SameFence(SlotOf(b.slots, d.o.unit, d.o.role), SlotOf(b'.slots, d.o.unit, d.o.role));
    forall key, role
      ensures SameFence(SlotOf(Applied(units, b, d.o, d.at).slots, key, role),
                        SlotOf(Applied(units, b', d'.o, d'.at).slots, key, role))
    {
      SlotAfterApply(units, b, d, key, role);
      SlotAfterApply(units, b', d', key, role);
      assert SameFence(SlotOf(b.slots, key, role), SlotOf(b'.slots, key, role));
    }
  }

  /** Two histories that differ only in what probes found fill the same slots at the same instants. */
  lemma {:induction false} HistoriesFillAlike(units: Inventory, ds: seq<Delivery>, ds': seq<Delivery>)
    requires SameHistory(ds, ds')
    ensures SameFences(Folded(units, ds).slots, Folded(units, ds').slots)
  {
    if ds != [] {
      var n := |ds| - 1;
      HistoriesFillAlike(units, ds[..n], ds'[..n]);
      ApplyKeepsFences(units, Folded(units, ds[..n]), Folded(units, ds'[..n]), ds[n], ds'[n]);
    }
  }

  lemma SameFencesSameStaleness(slots: Slots, slots': Slots, u: Unit, now: int, role: string)
    requires SameFences(slots, slots')
    ensures role in Rendered(slots, u, now).stale <==> role in Rendered(slots', u, now).stale
  {
    RenderedStale(slots, u, now, role);
    RenderedStale(slots', u, now, role);
    assert SameFence(SlotOf(slots, u.key, role), SlotOf(slots', u.key, role));
  }

  ghost predicate HealthAt(units: Inventory, order: seq<UnitKey>, ds: seq<Delivery>, now: int, fabric: Option<bool>,
                           machine: string, role: string, h: HealthResponse)
    requires forall i :: 0 <= i < |order| ==> order[i] in units
  {
    && h.checks.eventFabric == fabric
    && h.checks.serviceMonitor
       == Some(OwnReportsCurrent(machine, role, SiteSnapshot(units, order, Folded(units, ds).slots, now)))
    && h.status == StatusOf(h.checks)
  }

  /** An instance never calls itself down, so the gate only ever asks whether it can be reached. */
  lemma TheGateAsksReachability(units: Inventory, order: seq<UnitKey>, ds: seq<Delivery>, now: int,
                                fabric: Option<bool>, machine: string, role: string, r: Reply)
    requires forall i :: 0 <= i < |order| ==> order[i] in units
    requires r.Answered? ==> HealthAt(units, order, ds, now, fabric, machine, role, r.h)
    ensures PeerHealthy(r) <==> !r.NoReply? && !r.Refused?
  {
  }

  /**
   Whatever services turn out to be, up or down, slow or failing, an instance that heard the
   same reports at the same instants gives the same answer about itself, and passes its
   peer's gate.
   */
  lemma FindingsDoNotShow(units: Inventory, order: seq<UnitKey>, ds: seq<Delivery>, ds': seq<Delivery>, now: int,
                          fabric: Option<bool>, machine: string, role: string, h: HealthResponse, h': HealthResponse)
    requires (forall i :: 0 <= i < |order| ==> order[i] in units) && SameHistory(ds, ds')
    requires HealthAt(units, order, ds, now, fabric, machine, role, h)
    requires HealthAt(units, order, ds', now, fabric, machine, role, h')
    ensures h == h' && PeerHealthy(Answered(h)) && PeerHealthy(Answered(h'))
  {
    TheGateAsksReachability(units, order, ds, now, fabric, machine, role, Answered(h));
    TheGateAsksReachability(units, order, ds', now, fabric, machine, role, Answered(h'));
    var slots, slots' := Folded(units, ds).slots, Folded(units, ds').slots;
    HistoriesFillAlike(units, ds, ds');
    forall i | 0 <= i < |order|
      ensures role in Rendered(slots, units[order[i]], now).stale
              <==> role in Rendered(slots', units[order[i]], now).stale
    {
      SameFencesSameStaleness(slots, slots', units[order[i]], now, role);
    }
    var s, s' := SiteSnapshot(units, order, slots, now), SiteSnapshot(units, order, slots', now);
    assert forall i :: 0 <= i < |s| ==> (role in s[i].stale <==> role in s'[i].stale);
    assert OwnReportsCurrent(machine, role, s) <==> OwnReportsCurrent(machine, role, s');
  }

  /** Only this instance's own expired report about its own machine makes its monitor fail. */
  lemma MonitorFailsExactlyWhen(units: Inventory, order: seq<UnitKey>, slots: Slots, now: int, machine: string,
                                role: string)
    requires forall i :: 0 <= i < |order| ==> order[i] in units
    ensures !OwnReportsCurrent(machine, role, SiteSnapshot(units, order, slots, now))
            <==> exists i :: && 0 <= i < |order| && units[order[i]].key.machine == machine
                             && role in units[order[i]].observers
                             && SlotOf(slots, units[order[i]].key, role).Some?
                             && !Fresh(units[order[i]], SlotOf(slots, units[order[i]].key, role).value, now)
  {
    var s := SiteSnapshot(units, order, slots, now);
    forall i | 0 <= i < |order|
      ensures s[i].unit == units[order[i]]
      ensures role in s[i].stale
              <==> && role in units[order[i]].observers
                   && SlotOf(slots, units[order[i]].key, role).Some?
                   && !Fresh(units[order[i]], SlotOf(slots, units[order[i]].key, role).value, now)
    {
      RenderedStale(slots, units[order[i]], now, role);
    }
  }

  // ----- whether the rest of the site is heard

  datatype Distribution = Local | Isolated | Partial | Connected

  function Heard(s: seq<UnitSnapshot>, machine: string): int {
    if s == [] then 0
    else
      var last := s[|s| - 1];
      Heard(s[..|s| - 1], machine)
      + (if last.unit.key.machine == machine then 0 else |last.expected| - |last.missing| - |last.stale|)
  }

  function ExpectedElsewhere(s: seq<UnitSnapshot>, machine: string): int {
    if s == [] then 0
    else
      var last := s[|s| - 1];
      ExpectedElsewhere(s[..|s| - 1], machine) + (if last.unit.key.machine == machine then 0 else |last.expected|)
  }

  function DistributionOf(expected: int, current: int): Distribution {
    if expected == 0 then Local
    else if current == 0 then Isolated
    else if current < expected then Partial
    else Connected
  }

  method DistributionState(machine: string, s: seq<UnitSnapshot>) returns (state: Distribution)
    ensures state == DistributionOf(ExpectedElsewhere(s, machine), Heard(s, machine))
  {
    var current, expected := 0, 0;
    for i := 0 to |s|
      invariant current == Heard(s[..i], machine) && expected == ExpectedElsewhere(s[..i], machine)
    {
      assert s[..i + 1][..i] == s[..i];
      if s[i].unit.key.machine == machine {
        continue;
      }
      expected := expected + |s[i].expected|;
      current := current + |s[i].expected| - |s[i].missing| - |s[i].stale|;
    }
    assert s[..|s|] == s;
    state := DistributionOf(expected, current);
  }

  predicate Current(slots: Slots, u: Unit, role: string, now: int) {
    SlotOf(slots, u.key, role).Some? && Fresh(u, SlotOf(slots, u.key, role).value, now)
  }

  ghost predicate AllHeard(slots: Slots, u: Unit, roles: seq<string>, now: int) {
    forall r :: r in roles ==> Current(slots, u, r, now)
  }

  ghost predicate NoneHeard(slots: Slots, u: Unit, roles: seq<string>, now: int) {
    forall r :: r in roles ==> !Current(slots, u, r, now)
  }

  lemma HeardSplits(slots: Slots, u: Unit, roles: seq<string>, now: int)
    requires roles != []
    ensures var rest, last := roles[..|roles| - 1], roles[|roles| - 1];
            && (AllHeard(slots, u, roles, now) <==> AllHeard(slots, u, rest, now) && Current(slots, u, last, now))
            && (NoneHeard(slots, u, roles, now) <==> NoneHeard(slots, u, rest, now) && !Current(slots, u, last, now))
  {
  }

  /** Of a unit's expected observers: missing, stale and current ones make up the whole. */
  lemma {:induction false} ObserversAddUp(slots: Slots, u: Unit, roles: seq<string>, now: int)
    ensures var current := |roles| - |Missing(slots, u, roles)| - |StaleRoles(slots, u, roles, now)|;
            && 0 <= current <= |roles|
            && (current == |roles| <==> AllHeard(slots, u, roles, now))
            && (current == 0 <==> NoneHeard(slots, u, roles, now))
  {
    if roles != [] {
      ObserversAddUp(slots, u, roles[..|roles| - 1], now);
      HeardSplits(slots, u, roles, now);
    }
  }

  lemma UnitAddsUp(slots: Slots, u: Unit, now: int)
    ensures var s := Rendered(slots, u, now);
            var current := |s.expected| - |s.missing| - |s.stale|;
            && 0 <= current <= |s.expected| && |s.expected| == |u.observers|
            && (current == |s.expected| <==> AllHeard(slots, u, u.observers, now))
            && (current == 0 <==> NoneHeard(slots, u, u.observers, now))
  {
    var sorted := Sort(u.observers, StringLeq);
    StringOrder();
    SortSorts(u.observers, StringLeq);
    SortKeepsElements(u.observers, StringLeq);
    assert |sorted| == |multiset(sorted)| == |multiset(u.observers)|;
    ObserversAddUp(slots, u, sorted, now);
    assert forall r :: r in sorted <==> r in u.observers;
  }

  function Elsewhere(us: seq<Unit>, machine: string): seq<Unit> {
    if us == [] then []
    else
      Elsewhere(us[..|us| - 1], machine) + (if us[|us| - 1].key.machine == machine then [] else [us[|us| - 1]])
  }

  function RenderedAll(slots: Slots, us: seq<Unit>, now: int): (s: seq<UnitSnapshot>)
    ensures |s| == |us| && forall i :: 0 <= i < |us| ==> s[i] == Rendered(slots, us[i], now)
  {
    if us == [] then [] else RenderedAll(slots, us[..|us| - 1], now) + [Rendered(slots, us[|us| - 1], now)]
  }

  /**
   Connected means every report due from another machine is current here, Isolated that none
   is though some are due, and Local that none is due; anything between is Partial.
   */
  lemma {:induction false} DistributionMeans(slots: Slots, us: seq<Unit>, now: int, machine: string)
    ensures var s, others := RenderedAll(slots, us, now), Elsewhere(us, machine);
            var expected, current := ExpectedElsewhere(s, machine), Heard(s, machine);
            && 0 <= current <= expected
            && (expected == 0 <==> forall u :: u in others ==> u.observers == [])
            && (current == expected <==> forall u :: u in others ==> AllHeard(slots, u, u.observers, now))
            && (current == 0 <==> forall u :: u in others ==> NoneHeard(slots, u, u.observers, now))
  {
    if us != [] {
      var rest, last := us[..|us| - 1], us[|us| - 1];
      DistributionMeans(slots, rest, now, machine);
      UnitAddsUp(slots, last, now);
      var s := RenderedAll(slots, us, now);
      assert s[..|s| - 1] == RenderedAll(slots, rest, now);
      assert Elsewhere(us, machine) == Elsewhere(rest, machine) + (if last.key.machine == machine then [] else [last]);
      assert forall u :: u in Elsewhere(us, machine) <==>
                           u in Elsewhere(rest, machine) || (u == last && last.key.machine != machine);
    }
  }

  /**
   The named case, for a site whose units all have observers: Local if no unit is elsewhere,
   Connected if each report due from elsewhere is current, Isolated if none is, Partial
   if some are and some are not.
   */
  lemma DistributionNames(slots: Slots, us: seq<Unit>, now: int, machine: string)
    requires forall u :: u in us ==> u.observers != []
    ensures var s := RenderedAll(slots, us, now);
            var state := DistributionOf(ExpectedElsewhere(s, machine), Heard(s, machine));
            var due := forall u :: u in us ==> u.key.machine == machine;
            var all := forall u :: u in us && u.key.machine != machine ==> AllHeard(slots, u, u.observers, now);
            var none := forall u :: u in us && u.key.machine != machine ==> NoneHeard(slots, u, u.observers, now);
            && (state == Local <==> due) && (state == Connected <==> !due && all)
            && (state == Isolated <==> !due && none) && (state == Partial <==> !all && !none)
  {
    DistributionMeans(slots, us, now, machine);
    forall u {
      InElsewhere(us, machine, u);
    }
    if u :| u in us && u.key.machine != machine {
      assert u.observers[0] in u.observers;
      assert AllHeard(slots, u, u.observers, now) ==> Current(slots, u, u.observers[0], now);
    }
  }

  lemma {:induction false} InElsewhere(us: seq<Unit>, machine: string, u: Unit)
    ensures u in Elsewhere(us, machine) <==> u in us && u.key.machine != machine
  {
    if us != [] {
      InElsewhere(us[..|us| - 1], machine, u);
      assert us == us[..|us| - 1] + [us[|us| - 1]];
    }
  }

  /** A report is current exactly if it arrived no longer ago than it lasts. */
  lemma CurrentExactlyWhen(slots: Slots, u: Unit, role: string, now: int)
    ensures Current(slots, u, role, now)
            <==> SlotOf(slots, u.key, role).Some? && now - SlotOf(slots, u.key, role).value.receivedAt <= u.freshFor
  {
  }
}
