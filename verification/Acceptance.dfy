/**
 The refinement between the two programs: whatever the build tool accepts, the platform
 decodes and starts on. And where the two together still let something through.
 */
module Acceptance {
  import opened Options
  import opened Registry
  import opened Text
  import opened Descriptor
  import opened PlatformValidation
  import opened PlatformStartup
  import B = BuilderValidation
  import H = HealthView

  // ----- reading after trimming

  lemma PositiveSurvives(x: Syntax, s: string)
    requires Sane(x) && Positive(x.duration, s)
    ensures s == Trim(s) && Positive(Trimmed(x.duration), s)
  {
  }

  lemma HostedSurvives(x: Syntax, services: seq<Service>)
    requires Sane(x) && HostedOk(x, x.duration, services)
    ensures HostedOk(x, Trimmed(x.duration), services)
  {
  }

  lemma InventorySurvives(x: Syntax, units: seq<SiteService>)
    requires Sane(x) && InventoryOk(EntryOk(x.duration), units)
    ensures InventoryOk(EntryOk(Trimmed(x.duration)), units)
  {
  }

  lemma ListenersAreTrimmed(x: Syntax, d: Deployable, a: string)
    requires Sane(x) && B.EndpointsOk(x, d) && a in Listeners(d)
    ensures a == Trim(a)
  {
  }

  lemma PortsSurvive(x: Syntax, d: Deployable)
    requires Sane(x) && B.EndpointsOk(x, d)
    ensures PortsApart(Trimmed(x.split), d)
  {
    var all := Listeners(d);
    forall i | 0 <= i < |all|
      ensures Usable(x.split)(all[i]) == Usable(Trimmed(x.split))(all[i])
      ensures PortOf(x.split)(all[i]) == PortOf(Trimmed(x.split))(all[i])
    {
      ListenersAreTrimmed(x, d, all[i]);
    }
    forall s, a | s in d.services && a in all
      ensures PortOf(Trimmed(x.split))(a) != s.check.port
    {
      ListenersAreTrimmed(x, d, a);
      assert PortOf(x.split)(a) != s.check.port;
    }
  }

  /** What the build tool accepts passes every guard the platform decodes with. */
  lemma AcceptedDecodes(x: Syntax, d: Deployable)
    requires Sane(x) && B.Accepts(x, d)
    ensures Decodes(x, d)
  {
    HostedSurvives(x, d.services);
    InventorySurvives(x, d.siteServices);
    PortsSurvive(x, d);
  }

  lemma AcceptedProbes(x: Syntax, d: Deployable)
    requires Sane(x) && B.Accepts(x, d)
    ensures MonitorStarts(x, d)
  {
    forall i | 0 <= i < |d.services|
      ensures Probed(x, d.ip, d.services[i])
    {
      var c := d.services[i].check;
      assert ServiceOk(x, x.duration, d.services[i]);
      PositiveSurvives(x, c.interval);
      PositiveSurvives(x, c.timeout);
    }
  }

  lemma ObserversAreValid(roles: seq<string>)
    requires ObserversOk(roles)
    ensures H.RolesValid(roles)
  {
  }

  lemma RolesAreNotBlank(role: string)
    requires RoleOk(role)
    ensures !Blank(role)
  {
  }

  lemma EntryViews(x: Syntax, u: SiteService)
    requires NameOk(u.machine) && NameOk(u.service) && NameOk(u.profile) && RoleOk(u.role) && ObserversOk(u.observers)
    requires Positive(Trimmed(x.duration), u.freshFor)
    ensures Viewed(x, u)
  {
    ObserversAreValid(u.observers);
    RolesAreNotBlank(u.role);
  }

  lemma AcceptedViews(x: Syntax, d: Deployable)
    requires Sane(x) && B.Accepts(x, d)
    ensures ViewStarts(x, d)
  {
    forall i | 0 <= i < |d.siteServices|
      ensures Viewed(x, d.siteServices[i])
    {
      assert EntryOk(x.duration)(d.siteServices[i]);
      PositiveSurvives(x, d.siteServices[i].freshFor);
      EntryViews(x, d.siteServices[i]);
    }
  }

  lemma AcceptedFabric(x: Syntax, ip: string, i: Instance)
    requires Sane(x) && B.InstanceOk(x, ip, i)
    ensures FabricStarts(x, i.fabric)
  {
    var a := x.split(i.fabric.clusterAddress);
    assert x.ip(a.value.host);
    forall r | r in i.fabric.routes
      ensures x.dials(r)
    {
      var k :| 0 <= k < |i.fabric.routes| && i.fabric.routes[k] == r;
      assert x.route(i.fabric.routes[k]).Some?;
    }
  }

  lemma AcceptedFabrics(x: Syntax, d: Deployable)
    requires Sane(x) && B.Accepts(x, d)
    ensures FabricsStart(x, d)
  {
    AcceptedFabric(x, d.ip, d.primary);
    if d.standby.Some? {
      AcceptedFabric(x, d.ip, d.standby.value);
    }
  }

  lemma AcceptedFiles(x: Syntax, d: Deployable)
    requires B.Accepts(x, d)
    ensures Opens(d)
  {
  }

  lemma AcceptedTimings(x: Syntax, d: Deployable)
    requires Sane(x) && B.Accepts(x, d)
    ensures Loads(x, d) && !Blank(d.machine) && LeaseConfigOf(x, d).Some?
    ensures OpenLease(LeaseConfigOf(x, d).value) == (if d.standby.Some? then Contending else AlwaysActive)
  {
  }

  /** No machine the build tool accepts fails a check on the way to serving. */
  lemma AcceptedMachinesStart(x: Syntax, d: Deployable)
    requires Sane(x) && B.Accepts(x, d)
    ensures Decodes(x, d) && Starts(x, d)
    ensures OpenLease(LeaseConfigOf(x, d).value) == (if d.standby.Some? then Contending else AlwaysActive)
  {
    AcceptedDecodes(x, d);
    AcceptedFiles(x, d);
    AcceptedTimings(x, d);
    AcceptedFabrics(x, d);
    AcceptedProbes(x, d);
    AcceptedViews(x, d);
  }

  // ----- what the two validations together still let through

  /** The view this process builds from the descriptor. */
  ghost predicate ViewOf(x: Syntax, d: Deployable, units: H.Inventory, inventory: seq<H.Unit>) {
    Inventoried(x, d, inventory) && Indexes(units, inventory, H.KeyOf)
  }

  lemma EntryHasSlot(x: Syntax, d: Deployable, units: H.Inventory, inventory: seq<H.Unit>, u: SiteService)
    requires ViewOf(x, d, units, inventory) && u in d.siteServices
    ensures H.UnitKey(u.machine, u.service) in units && units[H.UnitKey(u.machine, u.service)].observers == u.observers
  {
  }

  lemma SlotHasEntry(x: Syntax, d: Deployable, units: H.Inventory, inventory: seq<H.Unit>, key: H.UnitKey)
    requires ViewOf(x, d, units, inventory) && key in units && InventoryOk(EntryOk(x.duration), d.siteServices)
    ensures key.machine == Trim(key.machine)
  {
  }

  /**
   A machine name with white space around it passes both validations: the inventory is
   written with the trimmed name, the process reports under the untrimmed one. So an
   accepted machine's own reports have a slot in its own view if and only if its name is
   already trimmed; otherwise every one of them is dropped as about an unknown target.
   */
  lemma OwnReportsHaveASlotExactlyWhen(x: Syntax, d: Deployable, units: H.Inventory, inventory: seq<H.Unit>,
                                       s: Service, o: H.Observation)
    requires Sane(x) && B.Accepts(x, d) && ViewOf(x, d, units, inventory) && s in d.services
    requires o.unit == H.UnitKey(d.machine, s.name) && o.role in Expected(d) && o.status.Observable()
    ensures H.Placeable(units, o) <==> d.machine == Trim(d.machine)
    ensures d.machine != Trim(d.machine) ==> forall slots :: H.Judge(units, slots, o) == H.UnknownTarget
  {
    if d.machine == Trim(d.machine) {
      assert Lists(x, d, s);
      var u :| u in d.siteServices && UnitOf(u) == UnitName(Trim(d.machine), s.name) && Matches(x, d, s, u);
      EntryHasSlot(x, d, units, inventory, u);
    } else if o.unit in units {
      SlotHasEntry(x, d, units, inventory, o.unit);
    }
  }

  /** A decoded machine with a standby contends for its lease exactly when the lease names a file. */
  lemma ContendsExactlyWhen(x: Syntax, d: Deployable)
    requires Decodes(x, d) && Starts(x, d) && d.standby.Some?
    ensures OpenLease(LeaseConfigOf(x, d).value).Contending? <==> d.lease.value.file != ""
  {
  }

  function WithoutLeaseFile(d: Deployable): Deployable
    requires d.lease.Some?
  {
    d.(lease := Some(d.lease.value.(file := "")))
  }

  lemma DecodingIgnoresTheLeaseFile(x: Syntax, d: Deployable)
    requires d.lease.Some? && d.standby.Some? && Decodes(x, d)
    ensures Decodes(x, WithoutLeaseFile(d))
  {
  }

  /**
   The platform alone does not refuse an empty lease file: such a descriptor decodes and
   starts, and each of its two instances is Active by construction. Only the build tool
   stands in the way.
   */
  lemma OnlyTheBuilderRefusesAnEmptyLeaseFile(x: Syntax, d: Deployable)
    requires Sane(x) && B.Accepts(x, d) && d.standby.Some?
    ensures var bare := WithoutLeaseFile(d);
            && Decodes(x, bare) && Starts(x, bare) && OpenLease(LeaseConfigOf(x, bare).value).AlwaysActive?
            && !B.Accepts(x, bare)
  {
    AcceptedMachinesStart(x, d);
    DecodingIgnoresTheLeaseFile(x, d);
    assert Blank("");
  }
}
