/**
 What a process refuses to start on: local files, listener timeouts, its broker's addresses
 and routes, lease timings, probe targets and the site inventory, each read again from the
 decoded descriptor.
 */
module PlatformStartup {
  import opened Options
  import opened Registry
  import opened Text
  import opened Descriptor
  import opened PlatformValidation
  import H = HealthView

  // ----- local files, and the origin of what a process states

  predicate FilesNamed(i: Instance) {
    !Blank(i.logFile) && !Blank(i.eventsFile) && !Blank(i.stateFile)
  }

  /** A path that is blank once trimmed is refused by every store, and a fact needs a machine and a profile. */
  predicate Opens(d: Deployable) {
    && FilesNamed(d.primary) && (d.standby.Some? ==> FilesNamed(d.standby.value))
    && !Blank(d.machineEventsFile) && d.machine != "" && d.profile != ""
  }

  // ----- timeouts

  predicate TimeoutsLoad(x: Syntax, i: Instance) {
    && x.duration(Trim(i.readHeaderTimeout)).Some? && x.duration(Trim(i.readHeaderTimeout)).value > 0
    && x.duration(Trim(i.shutdownTimeout)).Some? && x.duration(Trim(i.shutdownTimeout)).value > 0
  }

  predicate Loads(x: Syntax, d: Deployable) {
    TimeoutsLoad(x, d.primary) && (d.standby.Some? ==> TimeoutsLoad(x, d.standby.value))
  }

  // ----- the broker

  predicate AddressServes(x: Syntax, address: string) {
    var a := x.split(Trim(address));
    a.Some? && x.ip(a.value.host) && PortOk(a.value.port)
  }

  predicate FabricStarts(x: Syntax, f: Fabric) {
    && AddressServes(x, f.clusterAddress) && !Blank(f.serverName) && !Blank(f.clusterName)
    && forall r :: r in f.routes ==> x.dials(r)
  }

  predicate FabricsStart(x: Syntax, d: Deployable) {
    FabricStarts(x, d.primary.fabric) && (d.standby.Some? ==> FabricStarts(x, d.standby.value.fabric))
  }

  /** What a broker is checked for before it is created. */
  method StartFabric(x: Syntax, f: Fabric) returns (ok: bool)
    ensures ok <==> FabricStarts(x, f)
  {
    if !AddressServes(x, f.clusterAddress) || Blank(f.serverName) || Blank(f.clusterName) {
      return false;
    }
    ok := Every(f.routes, x.dials);
  }

  // ----- the lease

  datatype LeaseConfig = LeaseConfig(file: string, duration: int, renewal: int, healthCheck: int, failback: int)

  /** AlwaysActive is the nil lease: an instance that has no one to contend with. */
  datatype Opening = AlwaysActive | Refused | Contending

  function LeaseConfigOf(x: Syntax, d: Deployable): Option<LeaseConfig> {
    if d.lease.None? then Some(LeaseConfig("", 0, 0, 0, 0))
    else
      var l := d.lease.value;
      if LeaseParses(x, l) then
        Some(LeaseConfig(l.file, x.duration(l.duration).value, x.duration(l.renewal).value,
                         x.duration(l.healthCheck).value, x.duration(l.failback).value))
      else None
  }

  function OpenLease(c: LeaseConfig): Opening {
    if c.file == "" then AlwaysActive
    else if c.duration <= 0 || c.renewal <= 0 || c.healthCheck <= 0 then Refused
    else if c.renewal >= c.duration then Refused
    else Contending
  }

  // ----- probe targets

  datatype Target = Target(service: string, role: string, ip: string, port: int, path: string, interval: int,
                           timeout: int, retries: int)

  function TargetOf(x: Syntax, ip: string, s: Service): Option<Target> {
    var c := s.check;
    var interval, timeout := x.duration(Trim(c.interval)), x.duration(Trim(c.timeout));
    if interval.None? || timeout.None? || c.kind != "http" || !x.ip(Trim(ip)) || !x.composes(Trim(ip), c.port, c.path)
    then None
    else Some(Target(s.name, s.role, Trim(ip), c.port, c.path, interval.value, timeout.value, c.retries))
  }

  predicate TargetOk(t: Target) {
    !Blank(t.service) && t.interval > 0 && t.timeout > 0 && t.timeout < t.interval && t.retries >= 1
  }

  function TargetName(t: Target): string {
    t.service
  }

  /** A service whose target resolves into one a worker can run. */
  predicate Probed(x: Syntax, ip: string, s: Service) {
    TargetOf(x, ip, s).Some? && TargetOk(TargetOf(x, ip, s).value)
  }

  /** Maps a list through a conversion that may fail, as both adapters do. */
  method Convert<A, B>(items: seq<A>, convert: A -> Option<B>) returns (r: Option<seq<B>>)
    ensures r.Some? <==> forall i :: 0 <= i < |items| ==> convert(items[i]).Some?
    ensures r.Some? ==> |r.value| == |items| && forall i :: 0 <= i < |items| ==> convert(items[i]) == Some(r.value[i])
  {
    var made: seq<B> := [];
    for i := 0 to |items|
      invariant |made| == i && forall j :: 0 <= j < i ==> convert(items[j]) == Some(made[j])
    {
      var b := convert(items[i]);
      if b.None? {
        return None;
      }
      made := made + [b.value];
    }
    r := Some(made);
  }

  ghost predicate MonitorStarts(x: Syntax, d: Deployable) {
    AllValid(d.services, (s: Service) => Probed(x, d.ip, s)) && Distinct(d.services, NameOf)
  }

  method StartMonitor(x: Syntax, d: Deployable) returns (ok: bool)
    ensures ok <==> MonitorStarts(x, d)
  {
    var targets := Convert(d.services, (s: Service) => TargetOf(x, d.ip, s));
    if targets.None? {
      return false;
    }
    var named := Register(targets.value, TargetOk, TargetName);
    ok := named.Some?;
    assert forall i :: 0 <= i < |d.services| ==> TargetName(targets.value[i]) == NameOf(d.services[i]);
  }

  // ----- the site inventory

  function UnitFrom(x: Syntax, u: SiteService): Option<H.Unit> {
    var freshFor := x.duration(Trim(u.freshFor));
    if freshFor.None? then None
    else Some(H.Unit(H.UnitKey(u.machine, u.service), u.profile, u.role, u.observers, freshFor.value))
  }

  predicate Viewed(x: Syntax, u: SiteService) {
    UnitFrom(x, u).Some? && H.UnitValid(UnitFrom(x, u).value)
  }

  function DeploymentOf(d: Deployable): H.Deployment {
    H.Deployment(d.project, d.environment, d.site)
  }

  ghost predicate ViewStarts(x: Syntax, d: Deployable) {
    && H.DeploymentValid(DeploymentOf(d))
    && AllValid(d.siteServices, (u: SiteService) => Viewed(x, u)) && Distinct(d.siteServices, UnitOf)
  }

  ghost predicate Inventoried(x: Syntax, d: Deployable, inventory: seq<H.Unit>) {
    && |inventory| == |d.siteServices|
    && forall i :: 0 <= i < |inventory| ==> UnitFrom(x, d.siteServices[i]) == Some(inventory[i])
  }

  method StartView(x: Syntax, d: Deployable) returns (view: Option<H.View>)
    ensures view.Some? <==> ViewStarts(x, d)
    ensures view.Some? ==>
              exists inventory :: Inventoried(x, d, inventory) && Indexes(view.value.units, inventory, H.KeyOf)
  {
    var inventory := Convert(d.siteServices, (u: SiteService) => UnitFrom(x, u));
    if inventory.None? {
      return None;
    }
    view := H.NewView(DeploymentOf(d), inventory.value);
    assert Inventoried(x, d, inventory.value);
    SameKeys(x, d, inventory.value);
  }

  lemma SameKeys(x: Syntax, d: Deployable, inventory: seq<H.Unit>)
    requires Inventoried(x, d, inventory)
    ensures Distinct(inventory, H.KeyOf) <==> Distinct(d.siteServices, UnitOf)
    ensures AllValid(inventory, H.UnitValid) <==> AllValid(d.siteServices, (u: SiteService) => Viewed(x, u))
  {
  }

  // ----- all of it

  ghost predicate Starts(x: Syntax, d: Deployable) {
    && Opens(d) && Loads(x, d) && FabricsStart(x, d)
    && LeaseConfigOf(x, d).Some? && !OpenLease(LeaseConfigOf(x, d).value).Refused?
    && ViewStarts(x, d) && !Blank(d.machine)
    && MonitorStarts(x, d)
  }

  /** Everything of the descriptor that can stop a process of this machine before it serves. */
  method Start(x: Syntax, d: Deployable) returns (ok: bool)
    ensures ok <==> Starts(x, d)
  {
    if !Opens(d) || !Loads(x, d) {
      return false;
    }
    ok := StartFabric(x, d.primary.fabric);
    if ok && d.standby.Some? {
      ok := StartFabric(x, d.standby.value.fabric);
    }
    if !ok {
      return;
    }
    var config := LeaseConfigOf(x, d);
    if config.None? || OpenLease(config.value).Refused? {
      return false;
    }
    var view := StartView(x, d);
    if view.None? || Blank(d.machine) {
      return false;
    }
    ok := StartMonitor(x, d);
  }
}
