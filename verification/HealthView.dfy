/**
 One instance's picture of every service at its site: an inventory fixed at start, one
 fenced slot per unit and expected observer, and a reduction read at one moment.
 */
module HealthView {
  import opened Options
  import opened Registry
  import opened Sorting
  import opened Text

  /** A status as a report states it. Only the first three may come from an observer. */
  datatype Status = Unknown | Healthy | Unhealthy | Degraded | Unrecognized(text: string) {
    predicate Observable() {
      Unknown? || Healthy? || Unhealthy?
    }

    /** A finding about the service, as opposed to an observer that has none yet. */
    predicate Finding() {
      Healthy? || Unhealthy?
    }
  }

  datatype UnitKey = UnitKey(machine: string, service: string)

  datatype Unit = Unit(key: UnitKey, profile: string, serviceRole: string, observers: seq<string>, freshFor: int)

  datatype Deployment = Deployment(project: string, environment: string, site: string)

  /** What a sender says about its own attempt. */
  datatype Detail = Detail(checkedAt: int, latency: int, failures: int, error: string)

  datatype Observation = Observation(
    unit: UnitKey, role: string, epoch: nat, sequence: nat, status: Status, detail: Detail)

  datatype Report = Report(epoch: nat, sequence: nat, status: Status, receivedAt: int, detail: Detail)

  datatype Reason = Kept | UnknownTarget | UnknownObserver | UnusableStatus | Duplicate | Stale

  type Inventory = map<UnitKey, Unit>
  type Slots = map<UnitKey, map<string, Report>>
  type Drops = map<Reason, nat>

  // ----- the inventory a view starts from

  predicate DeploymentValid(d: Deployment) {
    !Blank(d.project) && !Blank(d.environment) && !Blank(d.site)
  }

  predicate RolesValid(roles: seq<string>) {
    && (forall i :: 0 <= i < |roles| ==> !Blank(roles[i]) && roles[i] == Trim(roles[i]))
    && (forall i, j :: 0 <= i < j < |roles| ==> roles[i] != roles[j])
  }

  predicate UnitValid(u: Unit) {
    && !Blank(u.key.machine) && !Blank(u.key.service) && !Blank(u.profile) && !Blank(u.serviceRole)
    && u.observers != [] && u.freshFor > 0 && RolesValid(u.observers)
  }

  function KeyOf(u: Unit): UnitKey {
    u.key
  }

  function Keys(units: seq<Unit>): (keys: seq<UnitKey>)
    ensures |keys| == |units| && forall i :: 0 <= i < |units| ==> keys[i] == KeyOf(units[i])
  {
    if units == [] then [] else Keys(units[..|units| - 1]) + [KeyOf(units[|units| - 1])]
  }

  // ----- folding one report in

  function SlotOf(slots: Slots, key: UnitKey, role: string): Option<Report> {
    if key in slots && role in slots[key] then Some(slots[key][role]) else None
  }

  /** The order reports are fenced by: incarnations first, then the sequence within one. */
  predicate Older(epoch: nat, sequence: nat, epoch': nat, sequence': nat) {
    epoch < epoch' || (epoch == epoch' && sequence < sequence')
  }

  /** A report this inventory has a slot for, carrying a status an observer may state. */
  predicate Placeable(units: Inventory, o: Observation) {
    o.unit in units && o.role in units[o.unit].observers && o.status.Observable()
  }

  function Judge(units: Inventory, slots: Slots, o: Observation): Reason {
    if o.unit !in units then UnknownTarget
    else if o.role !in units[o.unit].observers then UnknownObserver
    else if !o.status.Observable() then UnusableStatus
    else
      var current := SlotOf(slots, o.unit, o.role);
      if current.None? then Kept
      else if o.epoch == current.value.epoch && o.sequence == current.value.sequence then Duplicate
      else if Older(o.epoch, o.sequence, current.value.epoch, current.value.sequence) then Stale
      else Kept
  }

  function ReportOf(o: Observation, now: int): Report {
    Report(o.epoch, o.sequence, o.status, now, o.detail)
  }

  function Write(slots: Slots, key: UnitKey, role: string, r: Report): Slots {
    slots[key := (if key in slots then slots[key] else map[])[role := r]]
  }

  function Count(drops: Drops, reason: Reason): nat {
    if reason in drops then drops[reason] else 0
  }

  datatype Books = Books(slots: Slots, drops: Drops)

  function Applied(units: Inventory, b: Books, o: Observation, now: int): Books {
    var reason := Judge(units, b.slots, o);
    if reason == Kept then b.(slots := Write(b.slots, o.unit, o.role, ReportOf(o, now)))
    else b.(drops := b.drops[reason := Count(b.drops, reason) + 1])
  }

  // ----- what one moment's snapshot says

  predicate Fresh(u: Unit, r: Report, now: int) {
    now - r.receivedAt <= u.freshFor
  }

  /** One observer's line of a snapshot. */
  datatype Line = Line(role: string, status: Status, stale: bool, receivedAt: int, age: int, detail: Detail)

  datatype UnitSnapshot = UnitSnapshot(
    unit: Unit, status: Status,
    expected: seq<string>, missing: seq<string>, stale: seq<string>, lines: seq<Line>)

  datatype Summary = Summary(healthy: nat, unhealthy: nat, degraded: nat, unknown: nat)

  function Reduce(verdicts: seq<Status>): Status {
    if verdicts == [] then Unknown
    else if forall i :: 0 <= i < |verdicts| ==> verdicts[i] == verdicts[0] then verdicts[0]
    else Degraded
  }

  function Missing(slots: Slots, u: Unit, roles: seq<string>): seq<string> {
    if roles == [] then []
    else
      var rest, last := roles[..|roles| - 1], roles[|roles| - 1];
      Missing(slots, u, rest) + (if SlotOf(slots, u.key, last).None? then [last] else [])
  }

  function StaleRoles(slots: Slots, u: Unit, roles: seq<string>, now: int): seq<string> {
    if roles == [] then []
    else
      var rest, last := roles[..|roles| - 1], roles[|roles| - 1];
      var slot := SlotOf(slots, u.key, last);
      StaleRoles(slots, u, rest, now) + (if slot.Some? && !Fresh(u, slot.value, now) then [last] else [])
  }

  function Verdicts(slots: Slots, u: Unit, roles: seq<string>, now: int): seq<Status> {
    if roles == [] then []
    else
      var rest, last := roles[..|roles| - 1], roles[|roles| - 1];
      var slot := SlotOf(slots, u.key, last);
      Verdicts(slots, u, rest, now)
      + (if slot.Some? && Fresh(u, slot.value, now) && slot.value.status.Finding() then [slot.value.status] else [])
  }

  function LineOf(u: Unit, role: string, r: Report, now: int): Line {
    Line(role, r.status, !Fresh(u, r, now), r.receivedAt, now - r.receivedAt, r.detail)
  }

  function Lines(slots: Slots, u: Unit, roles: seq<string>, now: int): seq<Line> {
    if roles == [] then []
    else
      var rest, last := roles[..|roles| - 1], roles[|roles| - 1];
      var slot := SlotOf(slots, u.key, last);
      Lines(slots, u, rest, now) + (if slot.Some? then [LineOf(u, last, slot.value, now)] else [])
  }

  function Rendered(slots: Slots, u: Unit, now: int): UnitSnapshot {
    var roles := Sort(u.observers, StringLeq);
    UnitSnapshot(u, Reduce(Verdicts(slots, u, roles, now)), roles,
                 Missing(slots, u, roles), StaleRoles(slots, u, roles, now), Lines(slots, u, roles, now))
  }

  function CountStatus(s: seq<UnitSnapshot>, status: Status): nat {
    if s == [] then 0
    else CountStatus(s[..|s| - 1], status) + (if s[|s| - 1].status == status then 1 else 0)
  }

  /** How many units of a snapshot have each status. */
  function SummaryOf(s: seq<UnitSnapshot>): Summary {
    Summary(CountStatus(s, Healthy), CountStatus(s, Unhealthy), CountStatus(s, Degraded), CountStatus(s, Unknown))
  }

  // ----- the view, in place

  class View {
    const order: seq<UnitKey>
    const units: Inventory
    var slots: Slots
    var drops: Drops

    function State(): Books
      reads this
    {
      Books(slots, drops)
    }

    ghost predicate Valid() {
      && (forall key :: key in order <==> key in units)
      && (forall key :: key in units ==> units[key].key == key)
    }

    constructor (order: seq<UnitKey>, units: Inventory)
      ensures this.order == order && this.units == units && State() == Books(map[], map[])
    {
      this.order, this.units := order, units;
      slots, drops := map[], map[];
    }

    /** Keeps a report that is newer than its slot, and counts every other one. */
    method Apply(o: Observation, now: int) returns (reason: Reason)
      modifies this
      ensures reason == Judge(units, old(slots), o)
      ensures State() == Applied(units, old(State()), o, now)
    {
      if o.unit !in units {
        reason := Dropped(UnknownTarget);
        return;
      }
      if o.role !in units[o.unit].observers {
        reason := Dropped(UnknownObserver);
        return;
      }
      if !o.status.Observable() {
        reason := Dropped(UnusableStatus);
        return;
      }
      var current := SlotOf(slots, o.unit, o.role);
      if current.Some? {
        if o.epoch == current.value.epoch && o.sequence == current.value.sequence {
          reason := Dropped(Duplicate);
          return;
        }
        if o.epoch < current.value.epoch
           || (o.epoch == current.value.epoch && o.sequence < current.value.sequence)
        {
          reason := Dropped(Stale);
          return;
        }
      }
      slots := Write(slots, o.unit, o.role, ReportOf(o, now));
      reason := Kept;
    }

    method Dropped(why: Reason) returns (reason: Reason)
      modifies this`drops
      ensures reason == why && drops == old(drops)[why := Count(old(drops), why) + 1]
    {
      drops := drops[why := Count(drops, why) + 1];
      reason := why;
    }

    method RenderUnit(u: Unit, now: int) returns (s: UnitSnapshot)
      ensures s == Rendered(slots, u, now)
    {
      var roles := Sort(u.observers, StringLeq);
      var missing, stale, lines, verdicts := [], [], [], [];
      for i := 0 to |roles|
        invariant missing == Missing(slots, u, roles[..i])
        invariant stale == StaleRoles(slots, u, roles[..i], now)
        invariant verdicts == Verdicts(slots, u, roles[..i], now)
        invariant lines == Lines(slots, u, roles[..i], now)
      {
        assert roles[..i + 1][..i] == roles[..i];
        var slot := SlotOf(slots, u.key, roles[i]);
        if slot.None? {
          missing := missing + [roles[i]];
        } else {
          var aged := now - slot.value.receivedAt > u.freshFor;
          if aged {
            stale := stale + [roles[i]];
          } else if slot.value.status.Finding() {
            verdicts := verdicts + [slot.value.status];
          }
          lines := lines + [LineOf(u, roles[i], slot.value, now)];
        }
      }
      assert roles[..|roles|] == roles;
      var status := ReduceVerdicts(verdicts);
      s := UnitSnapshot(u, status, roles, missing, stale, lines);
    }

    method ReduceVerdicts(verdicts: seq<Status>) returns (status: Status)
      ensures status == Reduce(verdicts)
    {
      if |verdicts| == 0 {
        return Unknown;
      }
      for i := 1 to |verdicts|
        invariant forall j :: 0 <= j < i ==> verdicts[j] == verdicts[0]
      {
        if verdicts[i] != verdicts[0] {
          return Degraded;
        }
      }
      status := verdicts[0];
    }

    /** The whole site at one moment, in inventory order, with every unit counted once. */
    method Snapshot(now: int) returns (s: seq<UnitSnapshot>, summary: Summary)
      requires Valid()
      ensures |s| == |order|
      ensures forall i :: 0 <= i < |order| ==> s[i] == Rendered(slots, units[order[i]], now)
      ensures summary == SummaryOf(s)
    {
      s, summary := [], Summary(0, 0, 0, 0);
      for i := 0 to |order|
        invariant RenderedUpTo(s, i, now) && summary == SummaryOf(s)
      {
        var unit := RenderUnit(units[order[i]], now);
        s, summary := Append(s, summary, unit, now);
      }
    }

    /** The first n units of the inventory, as rendered at one moment. */
    ghost predicate RenderedUpTo(s: seq<UnitSnapshot>, n: nat, now: int)
      requires n <= |order| && Valid()
      reads this
    {
      |s| == n && forall j :: 0 <= j < n ==> s[j] == Rendered(slots, units[order[j]], now)
    }

    method Append(before: seq<UnitSnapshot>, counted: Summary, unit: UnitSnapshot, now: int)
      returns (s: seq<UnitSnapshot>, summary: Summary)
      requires Valid() && |before| < |order| && RenderedUpTo(before, |before|, now) && counted == SummaryOf(before)
      requires unit == Rendered(slots, units[order[|before|]], now)
      ensures RenderedUpTo(s, |before| + 1, now) && summary == SummaryOf(s)
    {
      summary := counted;
      match unit.status {
        case Healthy => summary := summary.(healthy := summary.healthy + 1);
        case Unhealthy => summary := summary.(unhealthy := summary.unhealthy + 1);
        case Degraded => summary := summary.(degraded := summary.degraded + 1);
        case Unknown => summary := summary.(unknown := summary.unknown + 1);
        case Unrecognized(_) =>
      }
      s := before + [unit];
      assert s[..|before|] == before;
    }
  }

  /** A view is built exactly from a named site and an inventory of valid, distinct units. */
  method NewView(d: Deployment, inventory: seq<Unit>) returns (v: Option<View>)
    ensures v.Some? <==> DeploymentValid(d) && AllValid(inventory, UnitValid) && Distinct(inventory, KeyOf)
    ensures v.Some? ==>
              && fresh(v.value) && v.value.Valid() && v.value.State() == Books(map[], map[])
              && v.value.order == Keys(inventory)
              && Indexes(v.value.units, inventory, KeyOf)
  {
    if !DeploymentValid(d) {
      return None;
    }
    var units := Register(inventory, UnitValid, KeyOf);
    if units.None? {
      return None;
    }
    var made := new View(Keys(inventory), units.value);
    v := Some(made);
  }
}
