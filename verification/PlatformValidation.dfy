/** What the platform requires of a descriptor: when it decodes, and then as it starts. */
module PlatformValidation {
  import opened Options
  import opened Registry
  import opened Text
  import opened Descriptor

  /** The platform trims a value before parsing it. */
  function Trimmed<T>(read: string -> Option<T>): string -> Option<T> {
    (s: string) => read(Trim(s))
  }

  // ----- decoding

  /** Listener timeouts and lease timings parse, and a lease is stated exactly with a standby. */
  predicate GuardsOk(x: Syntax, d: Deployable) {
    && x.duration(d.primary.readHeaderTimeout).Some? && x.duration(d.primary.shutdownTimeout).Some?
    && (d.standby.Some? ==>
          && x.duration(d.standby.value.readHeaderTimeout).Some? && x.duration(d.standby.value.shutdownTimeout).Some?
          && d.lease.Some? && LeaseParses(x, d.lease.value))
    && (d.standby.None? ==> d.lease.None?)
  }

  predicate LeaseParses(x: Syntax, l: LeaseBlock) {
    && x.duration(l.duration).Some? && x.duration(l.renewal).Some?
    && x.duration(l.healthCheck).Some? && x.duration(l.failback).Some?
  }

  ghost predicate Decodes(x: Syntax, d: Deployable) {
    && GuardsOk(x, d)
    && HostedOk(x, Trimmed(x.duration), d.services)
    && PortsApart(Trimmed(x.split), d)
    && InventoryOk(EntryOk(Trimmed(x.duration)), d.siteServices) && HalvesAgree(x, d)
  }

  function HostedUnits(machine: string, services: seq<Service>): set<UnitName> {
    set s | s in services :: UnitName(machine, s.name)
  }

  /** The test the inventory loop makes of one entry, this machine's own having to be hosted. */
  function OwnEntryOk(valid: SiteService -> bool, machine: string, hosted: set<UnitName>): SiteService -> bool {
    (u: SiteService) => valid(u) && (u.machine == machine ==> UnitOf(u) in hosted)
  }

  /** local holds this machine's own entries among those walked. */
  ghost predicate Local(local: map<UnitName, SiteService>, machine: string, units: seq<SiteService>) {
    && (forall u :: u in units && u.machine == machine ==> UnitOf(u) in local && local[UnitOf(u)] == u)
    && (forall k :: k in local ==> local[k] in units && UnitOf(local[k]) == k && k.machine == machine)
  }

  lemma LocalGrows(local: map<UnitName, SiteService>, machine: string, units: seq<SiteService>, u: SiteService)
    requires Local(local, machine, units) && UnitOf(u) !in UnitNames(units)
    ensures Local(if u.machine == machine then local[UnitOf(u) := u] else local, machine, units + [u])
  {
  }

  method Enter(valid: SiteService -> bool, machine: string, hosted: set<UnitName>, units: seq<SiteService>, i: nat,
               seen: set<UnitName>, machines: map<string, Policy>, local: map<UnitName, SiteService>)
    returns (ok: bool, seen': set<UnitName>, machines': map<string, Policy>, local': map<UnitName, SiteService>)
    requires i < |units| && Walked(OwnEntryOk(valid, machine, hosted), units[..i], seen, machines)
    requires Local(local, machine, units[..i])
    ensures !ok ==> !InventoryOk(OwnEntryOk(valid, machine, hosted), units)
    ensures ok ==> Walked(OwnEntryOk(valid, machine, hosted), units[..i + 1], seen', machines')
    ensures ok ==> Local(local', machine, units[..i + 1])
  {
    var u := units[i];
    ghost var test := OwnEntryOk(valid, machine, hosted);
    ok := valid(u) && UnitOf(u) !in seen && (u.machine in machines ==> machines[u.machine] == PolicyOf(u))
          && (u.machine == machine ==> UnitOf(u) in hosted);
    seen', machines', local' := seen, machines, local;
    if !ok {
      EntrySpoils(test, units, i, seen, machines);
      return;
    }
    if u.machine == machine {
      local' := local[UnitOf(u) := u];
    }
    seen' := seen + {UnitOf(u)};
    machines' := machines[u.machine := PolicyOf(u)];
    EntryTaken(test, machine, units, i, seen, machines, local);
  }

  lemma EntryTaken(valid: SiteService -> bool, machine: string, units: seq<SiteService>, i: nat,
                   seen: set<UnitName>, machines: map<string, Policy>, local: map<UnitName, SiteService>)
    requires i < |units| && Walked(valid, units[..i], seen, machines) && Joins(valid, units[i], seen, machines)
    requires Local(local, machine, units[..i])
    ensures var u := units[i];
            && Walked(valid, units[..i + 1], seen + {UnitOf(u)}, machines[u.machine := PolicyOf(u)])
            && Local(if u.machine == machine then local[UnitOf(u) := u] else local, machine, units[..i + 1])
  {
    EntryJoins(valid, units[..i], units[i], seen, machines);
    LocalGrows(local, machine, units[..i], units[i]);
    assert units[..i + 1] == units[..i] + [units[i]];
  }

  method ValidateInventory(x: Syntax, d: Deployable, hosted: set<UnitName>)
    returns (own: Option<map<UnitName, SiteService>>)
    requires d.siteServices != []
    ensures own.Some?
            <==> InventoryOk(OwnEntryOk(EntryOk(Trimmed(x.duration)), Trim(d.machine), hosted), d.siteServices)
    ensures own.Some? ==> Local(own.value, Trim(d.machine), d.siteServices)
  {
    var units, machine, valid := d.siteServices, Trim(d.machine), EntryOk(Trimmed(x.duration));
    var seen: set<UnitName> := {};
    var machines: map<string, Policy> := map[];
    var local: map<UnitName, SiteService> := map[];
    for i := 0 to |units|
      invariant Walked(OwnEntryOk(valid, machine, hosted), units[..i], seen, machines)
      invariant Local(local, machine, units[..i])
    {
      var ok;
      ok, seen, machines, local := Enter(valid, machine, hosted, units, i, seen, machines, local);
      if !ok {
        return None;
      }
    }
    WholeWalk(OwnEntryOk(valid, machine, hosted), machine, units, seen, machines, local);
    own := Some(local);
  }

  lemma WholeWalk(valid: SiteService -> bool, machine: string, units: seq<SiteService>, seen: set<UnitName>,
                  machines: map<string, Policy>, local: map<UnitName, SiteService>)
    requires units != [] && Walked(valid, units[..|units|], seen, machines)
    requires Local(local, machine, units[..|units|])
    ensures InventoryOk(valid, units) && Local(local, machine, units)
  {
  }

  /** The two ways of checking that the halves agree come to the same. */
  lemma LocalIsInventory(x: Syntax, d: Deployable, valid: SiteService -> bool)
    ensures InventoryOk(OwnEntryOk(valid, Trim(d.machine), HostedUnits(Trim(d.machine), d.services)), d.siteServices)
            <==> InventoryOk(valid, d.siteServices)
                 && forall u :: u in d.siteServices && u.machine == Trim(d.machine) ==> Hosts(d.services, u.service)
  {
  }

  lemma LocalMatches(x: Syntax, d: Deployable, local: map<UnitName, SiteService>, s: Service)
    requires Local(local, Trim(d.machine), d.siteServices)
    ensures MatchesListed(x, d, local)(s) <==> Lists(x, d, s)
  {
  }

  method ValidateHealth(x: Syntax, d: Deployable) returns (ok: bool)
    ensures ok <==> && HostedOk(x, Trimmed(x.duration), d.services) && PortsApart(Trimmed(x.split), d)
                    && InventoryOk(EntryOk(Trimmed(x.duration)), d.siteServices) && HalvesAgree(x, d)
  {
    if |d.services| == 0 || |d.siteServices| == 0 {
      return false;
    }
    var named := Register(d.services, (s: Service) => ServiceOk(x, Trimmed(x.duration), s), NameOf);
    if named.None? {
      return false;
    }
    ok := ValidatePorts(Trimmed(x.split), d);
    if !ok {
      return;
    }
    LocalIsInventory(x, d, EntryOk(Trimmed(x.duration)));
    var local := ValidateInventory(x, d, HostedUnits(Trim(d.machine), d.services));
    if local.None? {
      return false;
    }
    forall s {
      LocalMatches(x, d, local.value, s);
    }
    ok := Every(d.services, MatchesListed(x, d, local.value));
  }

  /** The platform's answer when it decodes a descriptor. */
  method Unmarshal(x: Syntax, d: Deployable) returns (ok: bool)
    ensures ok <==> Decodes(x, d)
  {
    if !GuardsOk(x, d) {
      return false;
    }
    ok := ValidateHealth(x, d);
  }
}
