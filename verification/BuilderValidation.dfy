/** The build tool's acceptance of a descriptor, loop by loop. */
module BuilderValidation {
  import opened Options
  import opened Registry
  import opened Text
  import opened Descriptor

  predicate Timed(x: Syntax, s: string) {
    Positive(x.duration, s)
  }

  predicate LeaseOk(x: Syntax, l: LeaseBlock) {
    && !Blank(l.file) && Timed(x, l.duration) && Timed(x, l.renewal) && Timed(x, l.healthCheck) && Timed(x, l.failback)
    && x.duration(l.renewal).value < x.duration(l.duration).value
  }

  predicate AddressOk(x: Syntax, a: string) {
    && !Blank(a) && x.split(a).Some?
    && !Blank(x.split(a).value.host) && PortOk(x.split(a).value.port)
  }

  ghost predicate RoutesOk(x: Syntax, f: Fabric) {
    && AllValid(f.routes, (r: string) => x.route(r).Some? && x.route(r).value != f.clusterAddress)
    && Distinct(f.routes, (r: string) => if x.route(r).Some? then x.route(r).value else "")
  }

  predicate PartsOk(x: Syntax, ip: string, i: Instance) {
    && AddressOk(x, i.apiAddress) && x.loopback(x.split(i.apiAddress).value.host)
    && !Blank(i.eventsFile) && !Blank(i.stateFile) && !Blank(i.logFile)
    && x.pathKey(i.eventsFile) != x.pathKey(i.stateFile)
    && Timed(x, i.readHeaderTimeout) && Timed(x, i.shutdownTimeout)
    && !Blank(i.fabric.serverName) && !Blank(i.fabric.clusterName)
    && AddressOk(x, i.fabric.clusterAddress) && x.sameIp(x.split(i.fabric.clusterAddress).value.host, ip)
  }

  ghost predicate InstanceOk(x: Syntax, ip: string, i: Instance) {
    PartsOk(x, ip, i) && RoutesOk(x, i.fabric)
  }

  function Files(d: Deployable): seq<string> {
    [d.machineEventsFile, d.primary.eventsFile, d.primary.stateFile, d.primary.logFile]
    + (if d.standby.Some? && d.lease.Some?
       then [d.standby.value.eventsFile, d.standby.value.stateFile, d.standby.value.logFile, d.lease.value.file]
       else [])
  }

  predicate ServiceIdentitiesOk(d: Deployable) {
    && d.primary.service.Some? && !Blank(d.primary.service.value)
    && (d.standby.Some? ==>
          && d.standby.value.service.Some? && !Blank(d.standby.value.service.value)
          && d.primary.service.value != d.standby.value.service.value)
  }

  predicate IdentityOk(x: Syntax, d: Deployable) {
    && !Blank(d.platform) && !Blank(d.project) && !Blank(d.environment) && !Blank(d.site)
    && !Blank(d.machine) && !Blank(d.profile) && x.ip(d.ip) && !Blank(d.machineEventsFile)
    && (if d.standby.Some? then d.lease.Some? && LeaseOk(x, d.lease.value) else d.lease.None?)
  }

  ghost predicate EndpointsOk(x: Syntax, d: Deployable) {
    && InstanceOk(x, d.ip, d.primary)
    && (d.standby.Some? ==> InstanceOk(x, d.ip, d.standby.value))
    && PortsApart(x.split, d)
  }

  /** Everything the build tool requires of a descriptor. */
  ghost predicate Accepts(x: Syntax, d: Deployable) {
    && IdentityOk(x, d)
    && HostedOk(x, x.duration, d.services)
    && InventoryOk(EntryOk(x.duration), d.siteServices) && HalvesAgree(x, d)
    && ServiceIdentitiesOk(d)
    && EndpointsOk(x, d)
    && Distinct(Files(d), x.pathKey)
  }

  // ----- the loops

  method ValidateHosted(x: Syntax, services: seq<Service>) returns (ok: bool)
    ensures ok <==> HostedOk(x, x.duration, services)
  {
    if |services| == 0 {
      return false;
    }
    var named := Register(services, (s: Service) => ServiceOk(x, x.duration, s), NameOf);
    ok := named.Some?;
  }

  /** One entry: joins what was walked before, or is refused. */
  method Enter(valid: SiteService -> bool, units: seq<SiteService>, i: nat, seen: map<UnitName, SiteService>,
               machines: map<string, Policy>)
    returns (ok: bool, seen': map<UnitName, SiteService>, machines': map<string, Policy>)
    requires i < |units| && Walked(valid, units[..i], seen.Keys, machines) && Indexes(seen, units[..i], UnitOf)
    ensures !ok ==> !InventoryOk(valid, units)
    ensures ok ==> Walked(valid, units[..i + 1], seen'.Keys, machines') && Indexes(seen', units[..i + 1], UnitOf)
  {
    var u := units[i];
    ok, seen', machines' := true, seen, machines;
    if !valid(u) || UnitOf(u) in seen || (u.machine in machines && machines[u.machine] != PolicyOf(u)) {
      EntrySpoils(valid, units, i, seen.Keys, machines);
      ok := false;
      return;
    }
    seen' := seen[UnitOf(u) := u];
    machines' := machines[u.machine := PolicyOf(u)];
    EntryTaken(valid, units, i, seen, machines);
  }

  lemma NextPrefix(units: seq<SiteService>, i: nat)
    requires i < |units|
    ensures units[..i + 1] == units[..i] + [units[i]]
  {
  }

  lemma EntryTaken(valid: SiteService -> bool, units: seq<SiteService>, i: nat, seen: map<UnitName, SiteService>,
                   machines: map<string, Policy>)
    requires i < |units| && Walked(valid, units[..i], seen.Keys, machines) && Indexes(seen, units[..i], UnitOf)
    requires Joins(valid, units[i], seen.Keys, machines)
    ensures var u := units[i];
            && Walked(valid, units[..i + 1], seen[UnitOf(u) := u].Keys, machines[u.machine := PolicyOf(u)])
            && Indexes(seen[UnitOf(u) := u], units[..i + 1], UnitOf)
  {
    NextPrefix(units, i);
    EntryJoins(valid, units[..i], units[i], seen.Keys, machines);
    IndexGrows(seen, units[..i], UnitOf, units[i]);
    KeysGrow(seen, UnitOf(units[i]), units[i]);
  }

  lemma KeysGrow<K, V>(m: map<K, V>, k: K, v: V)
    ensures m[k := v].Keys == m.Keys + {k}
  {
  }

  /** Entries valid, units listed once, and one policy per machine; keeps what is listed by unit. */
  method ValidateInventory(x: Syntax, units: seq<SiteService>) returns (listed: Option<map<UnitName, SiteService>>)
    ensures listed.Some? <==> InventoryOk(EntryOk(x.duration), units)
    ensures listed.Some? ==> Indexes(listed.value, units, UnitOf)
  {
    if |units| == 0 {
      return None;
    }
    var valid := EntryOk(x.duration);
    var seen: map<UnitName, SiteService> := map[];
    var machines: map<string, Policy> := map[];
    for i := 0 to |units|
      invariant Walked(valid, units[..i], seen.Keys, machines)
      invariant Indexes(seen, units[..i], UnitOf)
    {
      var ok;
      ok, seen, machines := Enter(valid, units, i, seen, machines);
      if !ok {
        return None;
      }
    }
    WholeWalk(valid, units, seen, machines);
    listed := Some(seen);
  }

  lemma WholeWalk(valid: SiteService -> bool, units: seq<SiteService>, seen: map<UnitName, SiteService>,
                  machines: map<string, Policy>)
    requires units != [] && Walked(valid, units[..|units|], seen.Keys, machines)
    requires Indexes(seen, units[..|units|], UnitOf)
    ensures InventoryOk(valid, units) && Indexes(seen, units, UnitOf)
  {
    assert units[..|units|] == units;
    WalkedAll(valid, units, seen.Keys, machines);
  }

  /** Whatever order the map yields its keys in: none names a service this machine lacks. */
  method NamesOnlyHosted(listed: map<UnitName, SiteService>, machine: string, hosted: set<string>) returns (ok: bool)
    ensures ok <==> forall k :: k in listed && k.machine == machine ==> k.service in hosted
  {
    var pending := listed.Keys;
    while pending != {}
      invariant pending <= listed.Keys
      invariant forall k :: k in listed && k !in pending && k.machine == machine ==> k.service in hosted
      decreases |pending|
    {
      var k :| k in pending;
      pending := pending - {k};
      if k.machine == machine && k.service !in hosted {
        return false;
      }
    }
    ok := true;
  }

  function ServiceNames(services: seq<Service>): set<string> {
    set s | s in services :: s.name
  }

  lemma ListedIsInventory(x: Syntax, d: Deployable, listed: map<UnitName, SiteService>)
    requires Indexes(listed, d.siteServices, UnitOf)
    ensures HalvesAgree(x, d)
            <==> && (forall k :: k in listed && k.machine == Trim(d.machine) ==> k.service in ServiceNames(d.services))
                 && forall s :: s in d.services ==> MatchesListed(x, d, listed)(s)
  {
  }

  method ValidateListed(x: Syntax, d: Deployable, listed: map<UnitName, SiteService>) returns (ok: bool)
    requires Indexes(listed, d.siteServices, UnitOf)
    ensures ok <==> HalvesAgree(x, d)
  {
    ListedIsInventory(x, d, listed);
    ok := NamesOnlyHosted(listed, Trim(d.machine), ServiceNames(d.services));
    if ok {
      ok := Every(d.services, MatchesListed(x, d, listed));
    }
  }

  method ValidateRoutes(x: Syntax, f: Fabric) returns (ok: bool)
    ensures ok <==> RoutesOk(x, f)
  {
    var seen := Register(f.routes, (r: string) => x.route(r).Some? && x.route(r).value != f.clusterAddress,
                         (r: string) => if x.route(r).Some? then x.route(r).value else "");
    ok := seen.Some?;
  }

  method ValidateInstance(x: Syntax, ip: string, i: Instance) returns (ok: bool)
    ensures ok <==> InstanceOk(x, ip, i)
  {
    if !PartsOk(x, ip, i) {
      return false;
    }
    ok := ValidateRoutes(x, i.fabric);
  }

  method ValidateEndpoints(x: Syntax, d: Deployable) returns (ok: bool)
    ensures ok <==> EndpointsOk(x, d)
  {
    ok := ValidateInstance(x, d.ip, d.primary);
    if !ok {
      return;
    }
    if d.standby.Some? {
      ok := ValidateInstance(x, d.ip, d.standby.value);
      if !ok {
        return;
      }
    }
    ok := ValidatePorts(x.split, d);
  }

  method ValidateLocalFiles(x: Syntax, d: Deployable) returns (ok: bool)
    ensures ok <==> Distinct(Files(d), x.pathKey)
  {
    var taken := Register(Files(d), (f: string) => true, x.pathKey);
    ok := taken.Some?;
  }

  /** The build tool's answer, for any descriptor. */
  method Validate(x: Syntax, d: Deployable) returns (ok: bool)
    ensures ok <==> Accepts(x, d)
  {
    if !IdentityOk(x, d) {
      return false;
    }
    ok := ValidateHosted(x, d.services);
    if !ok {
      return;
    }
    var listed := ValidateInventory(x, d.siteServices);
    if listed.None? {
      return false;
    }
    ok := ValidateListed(x, d, listed.value);
    if !ok {
      return;
    }
    if !ServiceIdentitiesOk(d) {
      return false;
    }
    ok := ValidateEndpoints(x, d);
    if !ok {
      return;
    }
    ok := ValidateLocalFiles(x, d);
  }
}
