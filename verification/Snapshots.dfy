/** What a rendered snapshot says of the reports that were delivered, and when. */
module Snapshots {
  import opened Options
  import opened Sorting
  import opened HealthView
  import opened Convergence

  // ----- what a slot keeps of a delivery

  /**
   A filled slot holds one delivery for it, as it arrived: no delivery for the slot is newer,
   no earlier one is as new, and the slot keeps its stamp, status and detail, and the
   instant it arrived at.
   */
  lemma SlotKeepsADelivery(units: Inventory, ds: seq<Delivery>, key: UnitKey, role: string) returns (i: nat)
    ensures SlotOf(Folded(units, ds).slots, key, role).None? <==>
              forall j :: 0 <= j < |ds| ==> !(ds[j].o.unit == key && ds[j].o.role == role && Placeable(units, ds[j].o))
    ensures SlotOf(Folded(units, ds).slots, key, role).Some? ==>
              var r := SlotOf(Folded(units, ds).slots, key, role).value;
              && NewestAt(units, ds, key, role, i)
              && r.receivedAt == ds[i].at && r.epoch == ds[i].o.epoch && r.sequence == ds[i].o.sequence
              && r.status == ds[i].o.status && r.detail == ds[i].o.detail
  {
    i := SlotHoldsTheNewest(units, ds, key, role);
  }

  /** A report has a slot exactly if it is about a listed unit, by an expected observer, with a status one may state. */
  lemma PlaceableExactlyWhen(units: Inventory, o: Observation)
    ensures Placeable(units, o)
            <==> && o.unit in units && o.role in units[o.unit].observers
                 && (o.status == Unknown || o.status == Healthy || o.status == Unhealthy)
  {
  }

  /** Newer means a later incarnation, or a later report of the same one. */
  lemma OlderExactlyWhen(a: Observation, b: Observation)
    ensures OlderThan(a, b) <==> a.epoch < b.epoch || (a.epoch == b.epoch && a.sequence < b.sequence)
  {
  }

  /** Why a report is not kept, and what is counted then. */
  lemma ReasonsMean(units: Inventory, ds: seq<Delivery>, o: Observation, now: int)
    ensures var b := Folded(units, ds);
            var reason, slot := Judge(units, b.slots, o), SlotOf(b.slots, o.unit, o.role);
            var after := Applied(units, b, o, now);
            && (reason == UnknownTarget <==> o.unit !in units)
            && (reason == UnknownObserver <==> o.unit in units && o.role !in units[o.unit].observers)
            && (reason == UnusableStatus <==>
                  o.unit in units && o.role in units[o.unit].observers
                  && o.status != Unknown && o.status != Healthy && o.status != Unhealthy)
            && (reason == Duplicate <==>
                  && Placeable(units, o) && slot.Some?
                  && slot.value.epoch == o.epoch && slot.value.sequence == o.sequence)
            && (reason == Stale <==>
                  && Placeable(units, o) && slot.Some?
                  && (o.epoch < slot.value.epoch || (o.epoch == slot.value.epoch && o.sequence < slot.value.sequence)))
            && (reason == Kept ==> after.drops == b.drops)
            && (reason != Kept ==>
                  && after.slots == b.slots
                  && forall r: Reason :: Count(after.drops, r) == Count(b.drops, r) + (if r == reason then 1 else 0))
  {
  }

  // ----- what a unit's snapshot says

  ghost predicate Received(units: Inventory, ds: seq<Delivery>, key: UnitKey, role: string) {
    exists j :: 0 <= j < |ds| && ds[j].o.unit == key && ds[j].o.role == role && Placeable(units, ds[j].o)
  }

  lemma {:induction false} MissingMeans(slots: Slots, u: Unit, roles: seq<string>, role: string)
    ensures role in Missing(slots, u, roles) <==> role in roles && SlotOf(slots, u.key, role).None?
  {
    if roles != [] {
      MissingMeans(slots, u, roles[..|roles| - 1], role);
      assert roles == roles[..|roles| - 1] + [roles[|roles| - 1]];
    }
  }

  lemma {:induction false} StaleMeans(slots: Slots, u: Unit, roles: seq<string>, now: int, role: string)
    ensures role in StaleRoles(slots, u, roles, now)
            <==> && role in roles && SlotOf(slots, u.key, role).Some?
                 && now - SlotOf(slots, u.key, role).value.receivedAt > u.freshFor
  {
    if roles != [] {
      StaleMeans(slots, u, roles[..|roles| - 1], now, role);
      assert roles == roles[..|roles| - 1] + [roles[|roles| - 1]];
    }
  }

  /** One observer's line tells its slot: what was reported, when it arrived and how old it is by now. */
  ghost predicate TellsSlot(slots: Slots, u: Unit, now: int, line: Line) {
    var slot := SlotOf(slots, u.key, line.role);
    && slot.Some?
    && line.status == slot.value.status && line.detail == slot.value.detail && line.receivedAt == slot.value.receivedAt
    && line.age == now - slot.value.receivedAt && (line.stale <==> line.age > u.freshFor)
  }

  lemma {:induction false} LinesMean(slots: Slots, u: Unit, roles: seq<string>, now: int)
    ensures forall line :: line in Lines(slots, u, roles, now) ==> line.role in roles && TellsSlot(slots, u, now, line)
    ensures forall role :: role in roles && SlotOf(slots, u.key, role).Some? ==>
              exists line :: line in Lines(slots, u, roles, now) && line.role == role
    ensures |Lines(slots, u, roles, now)| + |Missing(slots, u, roles)| == |roles|
  {
    if roles != [] {
      var rest, last := roles[..|roles| - 1], roles[|roles| - 1];
      LinesMean(slots, u, rest, now);
      assert roles == rest + [last];
      var slot := SlotOf(slots, u.key, last);
      if slot.Some? {
        var lines := Lines(slots, u, roles, now);
        assert lines[|lines| - 1].role == last && lines[|lines| - 1] in lines;
        assert forall line :: line in Lines(slots, u, rest, now) ==> line in lines;
      }
    }
  }

  lemma RolesAreObservers(u: Unit)
    ensures var roles := Sort(u.observers, StringLeq);
            && (forall r :: r in roles <==> r in u.observers) && |roles| == |u.observers| && Sorted(roles, StringLeq)
  {
    StringOrder();
    SortSorts(u.observers, StringLeq);
    SortKeepsElements(u.observers, StringLeq);
    assert |Sort(u.observers, StringLeq)| == |multiset(Sort(u.observers, StringLeq))| == |multiset(u.observers)|;
  }

  /**
   What a unit's snapshot says of a role: it is missing exactly if expected and never heard;
   stale exactly if expected and what is held of it arrived longer ago than reports last.
   */
  lemma SnapshotMeans(units: Inventory, ds: seq<Delivery>, u: Unit, now: int, role: string) returns (i: nat)
    ensures var s := Rendered(Folded(units, ds).slots, u, now);
            && s.unit == u && Sorted(s.expected, StringLeq) && |s.expected| == |u.observers|
            && (role in s.expected <==> role in u.observers)
            && (role in s.missing <==> role in u.observers && !Received(units, ds, u.key, role))
            && (Received(units, ds, u.key, role) ==> NewestAt(units, ds, u.key, role, i))
            && (role in s.stale <==>
                  role in u.observers && Received(units, ds, u.key, role) && now - ds[i].at > u.freshFor)
  {
    var slots := Folded(units, ds).slots;
    var roles := Sort(u.observers, StringLeq);
    i := SlotKeepsADelivery(units, ds, u.key, role);
    RolesAreObservers(u);
    MissingMeans(slots, u, roles, role);
    StaleMeans(slots, u, roles, now, role);
  }

  /**
   Of each expected observer that was heard the snapshot has a line, which tells its newest
   report, and of no other.
   */
  lemma LinesTellTheNewest(units: Inventory, ds: seq<Delivery>, u: Unit, now: int, role: string)
    returns (i: nat, line: Line)
    requires role in u.observers && Received(units, ds, u.key, role)
    ensures NewestAt(units, ds, u.key, role, i)
    ensures line in Rendered(Folded(units, ds).slots, u, now).lines && line.role == role
    ensures line.status == ds[i].o.status && line.detail == ds[i].o.detail && line.receivedAt == ds[i].at
    ensures line.age == now - ds[i].at && (line.stale <==> now - ds[i].at > u.freshFor)
  {
    var slots := Folded(units, ds).slots;
    i := SlotKeepsADelivery(units, ds, u.key, role);
    RolesAreObservers(u);
    LinesMean(slots, u, Sort(u.observers, StringLeq), now);
    line :| line in Lines(slots, u, Sort(u.observers, StringLeq), now) && line.role == role;
  }

  // ----- what the summary counts

  ghost function Having(s: seq<UnitSnapshot>, status: Status): set<nat> {
    set i: nat | i < |s| && s[i].status == status
  }

  lemma {:induction false} CountsMean(s: seq<UnitSnapshot>, status: Status)
    ensures CountStatus(s, status) == |Having(s, status)|
  {
    if s != [] {
      var n := |s| - 1;
      CountsMean(s[..n], status);
      assert Having(s, status) == Having(s[..n], status) + (if s[n].status == status then {n} else {});
    }
  }

  lemma {:induction false} FourStatuses(s: seq<UnitSnapshot>)
    requires forall i :: 0 <= i < |s| ==> s[i].status in {Healthy, Unhealthy, Degraded, Unknown}
    ensures CountStatus(s, Healthy) + CountStatus(s, Unhealthy) + CountStatus(s, Degraded) + CountStatus(s, Unknown)
            == |s|
  {
    if s != [] {
      FourStatuses(s[..|s| - 1]);
    }
  }

  /** Each number of a summary is how many units have that status, and together they are all the units. */
  lemma SummaryMeans(slots: Slots, us: seq<Unit>, s: seq<UnitSnapshot>, now: int)
    requires |s| == |us| && forall i :: 0 <= i < |s| ==> s[i] == Rendered(slots, us[i], now)
    ensures var sum := SummaryOf(s);
            && sum.healthy == |Having(s, Healthy)| && sum.unhealthy == |Having(s, Unhealthy)|
            && sum.degraded == |Having(s, Degraded)| && sum.unknown == |Having(s, Unknown)|
            && sum.healthy + sum.unhealthy + sum.degraded + sum.unknown == |us|
  {
    CountsMean(s, Healthy);
    CountsMean(s, Unhealthy);
    CountsMean(s, Degraded);
    CountsMean(s, Unknown);
    forall i | 0 <= i < |s|
      ensures s[i].status in {Healthy, Unhealthy, Degraded, Unknown}
    {
      StatusMeansAgreement(slots, us[i], now);
    }
    FourStatuses(s);
  }
}
