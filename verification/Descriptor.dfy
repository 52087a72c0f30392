/**
 One machine's deployment descriptor, and what it means for one to be well formed. The
 builder and the platform check it with code of their own; the conditions they share are
 defined here, over the way each of them reads a duration.
 */
module Descriptor {
  import opened Options
  import opened Registry
  import opened Text

  // ----- the record

  datatype Check = Check(kind: string, port: int, path: string, interval: string, timeout: string, retries: int)

  datatype Service = Service(name: string, role: string, check: Check)

  datatype SiteService = SiteService(
    machine: string, profile: string, service: string, role: string, observers: seq<string>, freshFor: string)

  datatype LeaseBlock = LeaseBlock(
    file: string, duration: string, renewal: string, healthCheck: string, failback: string)

  datatype Fabric = Fabric(serverName: string, clusterName: string, clusterAddress: string, routes: seq<string>)

  /** service is the name of the instance's Windows Service, None if it has none. */
  datatype Instance = Instance(
    service: Option<string>, eventsFile: string, stateFile: string, logFile: string,
    apiAddress: string, readHeaderTimeout: string, shutdownTimeout: string, fabric: Fabric)

  datatype Deployable = Deployable(
    platform: string, project: string, environment: string, site: string, machine: string, profile: string,
    ip: string, services: seq<Service>, siteServices: seq<SiteService>, machineEventsFile: string,
    primary: Instance, standby: Option<Instance>, lease: Option<LeaseBlock>)

  datatype UnitName = UnitName(machine: string, service: string)

  // ----- the text both programs parse with the same libraries

  datatype HostPort = HostPort(host: string, port: int)

  /**
   What the libraries say about text: durations, addresses, request targets, routes and
   paths. composes tells whether an ip, a port and a path join into a URL that still
   names that ip and port. route is how a validator reads a route, and dials whether the
   broker would dial it.
   */
  datatype Syntax = Syntax(
    duration: string -> Option<int>,
    ip: string -> bool,
    loopback: string -> bool,
    sameIp: (string, string) -> bool,
    split: string -> Option<HostPort>,
    target: string -> bool,
    composes: (string, int, string) -> bool,
    route: string -> Option<string>,
    dials: string -> bool,
    pathKey: string -> string)

  /** The parsers accept no surrounding white space, a request target composes, and a usable route can be dialed. */
  ghost predicate Sane(x: Syntax) {
    && (forall s :: x.duration(s).Some? ==> s == Trim(s) && x.duration(s).value <= MAX_DURATION)
    && (forall s :: x.ip(s) ==> s == Trim(s))
    && (forall s :: x.loopback(s) ==> x.ip(s))
    && (forall s, t :: x.sameIp(s, t) ==> x.ip(s))
    && (forall s :: x.split(s).Some? && x.ip(x.split(s).value.host) ==> s == Trim(s))
    && (forall s :: x.route(s).Some? ==> x.dials(s))
    && (forall ip, port, path :: x.ip(ip) && PortOk(port) && x.target(path) ==> x.composes(ip, port, path))
  }

  /** How the build tool writes an address, a route to it, and a duration. */
  datatype Writer = Writer(join: (string, int) -> string, url: (string, int) -> string, render: int -> string)

  const LOOPBACK := "127.0.0.1"

  /** What the build tool writes reads back as what it wrote, and nothing empty reads as anything. */
  ghost predicate RoundTrips(x: Syntax, w: Writer) {
    && !x.ip("") && x.split("").None? && x.duration("").None? && x.loopback(LOOPBACK)
    && (forall ip :: x.ip(ip) ==> x.sameIp(ip, ip))
    && (forall ip, port :: x.ip(ip) && PortOk(port) ==> x.split(w.join(ip, port)) == Some(HostPort(ip, port)))
    && (forall ip, port :: x.ip(ip) && PortOk(port) ==> x.route(w.url(ip, port)) == Some(w.join(ip, port)))
    && (forall d :: 0 < d <= MAX_DURATION ==> x.duration(w.render(d)) == Some(d))
  }

  const MAX_DURATION: int := 0x7FFF_FFFF_FFFF_FFFF

  // ----- conditions

  predicate PortOk(port: int) {
    1 <= port <= 65535
  }

  predicate NameOk(s: string) {
    !Blank(s) && s == Trim(s)
  }

  predicate RoleOk(role: string) {
    role in ["master", "slave"]
  }

  predicate Positive(read: string -> Option<int>, s: string) {
    !Blank(s) && read(s).Some? && read(s).value > 0
  }

  predicate CheckOk(x: Syntax, read: string -> Option<int>, c: Check) {
    && c.kind == "http" && PortOk(c.port) && x.target(c.path)
    && Positive(read, c.interval) && Positive(read, c.timeout)
    && read(c.timeout).value < read(c.interval).value
    && c.retries >= 1
  }

  predicate ServiceOk(x: Syntax, read: string -> Option<int>, s: Service) {
    NameOk(s.name) && RoleOk(s.role) && CheckOk(x, read, s.check)
  }

  const OBSERVERS: seq<string> := ["primary", "standby"]

  predicate ObserversOk(roles: seq<string>) {
    roles != [] && |roles| <= |OBSERVERS| && roles == OBSERVERS[..|roles|]
  }

  predicate SiteServiceOk(read: string -> Option<int>, u: SiteService) {
    && NameOk(u.machine) && NameOk(u.service) && RoleOk(u.role) && NameOk(u.profile)
    && ObserversOk(u.observers) && Positive(read, u.freshFor)
  }

  function UnitOf(u: SiteService): UnitName {
    UnitName(u.machine, u.service)
  }

  function NameOf(s: Service): string {
    s.name
  }

  /** The part of an entry that belongs to its machine. */
  datatype Policy = Policy(profile: string, observers: seq<string>)

  function PolicyOf(u: SiteService): Policy {
    Policy(u.profile, u.observers)
  }

  ghost predicate Agree(units: seq<SiteService>) {
    forall u, v :: u in units && v in units && u.machine == v.machine ==> PolicyOf(u) == PolicyOf(v)
  }

  function Expected(d: Deployable): seq<string> {
    if d.standby.Some? then OBSERVERS else OBSERVERS[..1]
  }

  /** How long a report stays fresh under a probe policy, None if a duration cannot hold it. */
  function FreshFor(x: Syntax, c: Check): Option<int> {
    Derived(x.duration(Trim(c.interval)), x.duration(Trim(c.timeout)))
  }

  function Derived(interval: Option<int>, timeout: Option<int>): Option<int> {
    if interval.None? || timeout.None? then None
    else if interval.value > (MAX_DURATION - timeout.value) / 2 then None
    else Some(2 * interval.value + timeout.value)
  }

  /** The guard refuses exactly the policies whose freshness a 64-bit duration cannot hold. */
  lemma OverflowGuardIsExact(x: Syntax, c: Check, interval: int, timeout: int)
    requires x.duration(Trim(c.interval)) == Some(interval) && x.duration(Trim(c.timeout)) == Some(timeout)
    requires 0 < interval && 0 < timeout
    ensures FreshFor(x, c) == if 2 * interval + timeout <= MAX_DURATION then Some(2 * interval + timeout) else None
  {
  }

  /** An inventory entry says about a hosted service what the machine itself says. */
  predicate Matches(x: Syntax, d: Deployable, s: Service, u: SiteService) {
    && u.role == s.role && u.profile == Trim(d.profile) && u.observers == Expected(d)
    && FreshFor(x, s.check).Some? && x.duration(Trim(u.freshFor)) == FreshFor(x, s.check)
  }

  /** A hosted service's own entry, looked up by unit, matches it. */
  function MatchesListed(x: Syntax, d: Deployable, listed: map<UnitName, SiteService>): Service -> bool {
    (s: Service) =>
      var k := UnitName(Trim(d.machine), s.name);
      k in listed && Matches(x, d, s, listed[k])
  }

  method Every<T(==)>(items: seq<T>, test: T -> bool) returns (ok: bool)
    ensures ok <==> forall x :: x in items ==> test(x)
  {
    for i := 0 to |items|
      invariant forall x :: x in items[..i] ==> test(x)
    {
      if !test(items[i]) {
        return false;
      }
      assert items[..i + 1] == items[..i] + [items[i]];
    }
    assert items[..|items|] == items;
    ok := true;
  }

  ghost predicate Hosts(services: seq<Service>, name: string) {
    exists s :: s in services && s.name == name
  }

  ghost predicate Lists(x: Syntax, d: Deployable, s: Service) {
    exists u :: u in d.siteServices && UnitOf(u) == UnitName(Trim(d.machine), s.name) && Matches(x, d, s, u)
  }

  /** The local half and the site half of the health contract tell the same about this machine. */
  ghost predicate HalvesAgree(x: Syntax, d: Deployable) {
    && (forall u :: u in d.siteServices && u.machine == Trim(d.machine) ==> Hosts(d.services, u.service))
    && (forall s :: s in d.services ==> Lists(x, d, s))
  }

  ghost predicate HostedOk(x: Syntax, read: string -> Option<int>, services: seq<Service>) {
    services != [] && AllValid(services, (s: Service) => ServiceOk(x, read, s)) && Distinct(services, NameOf)
  }

  function EntryOk(read: string -> Option<int>): SiteService -> bool {
    (u: SiteService) => SiteServiceOk(read, u)
  }

  ghost predicate InventoryOk(valid: SiteService -> bool, units: seq<SiteService>) {
    units != [] && AllValid(units, valid) && Distinct(units, UnitOf) && Agree(units)
  }

  // ----- one inventory loop's bookkeeping, which both programs keep

  function UnitNames(units: seq<SiteService>): set<UnitName> {
    set u | u in units :: UnitOf(u)
  }

  function Machines(units: seq<SiteService>): set<string> {
    set u | u in units :: u.machine
  }

  /** policies maps each machine met so far to what its entries all say. */
  ghost predicate Policies(policies: map<string, Policy>, units: seq<SiteService>) {
    && policies.Keys == Machines(units)
    && forall u :: u in units ==> policies[u.machine] == PolicyOf(u)
  }

  ghost predicate EntriesOk(valid: SiteService -> bool, units: seq<SiteService>) {
    (forall u :: u in units ==> valid(u)) && Distinct(units, UnitOf)
  }

  /** The entries walked so far are acceptable together, and the maps say what they hold. */
  ghost predicate Walked(valid: SiteService -> bool, units: seq<SiteService>, seen: set<UnitName>,
                         policies: map<string, Policy>) {
    EntriesOk(valid, units) && Agree(units) && seen == UnitNames(units) && Policies(policies, units)
  }

  predicate Joins(valid: SiteService -> bool, u: SiteService, seen: set<UnitName>, policies: map<string, Policy>) {
    valid(u) && UnitOf(u) !in seen && (u.machine in policies ==> policies[u.machine] == PolicyOf(u))
  }

  lemma EntryJoins(valid: SiteService -> bool, units: seq<SiteService>, u: SiteService, seen: set<UnitName>,
                   policies: map<string, Policy>)
    requires Walked(valid, units, seen, policies) && Joins(valid, u, seen, policies)
    ensures Walked(valid, units + [u], seen + {UnitOf(u)}, policies[u.machine := PolicyOf(u)])
  {
  }

  /** An entry that does not join spoils every inventory that continues the walk with it. */
  lemma EntrySpoils(valid: SiteService -> bool, units: seq<SiteService>, n: nat, seen: set<UnitName>,
                    policies: map<string, Policy>)
    requires n < |units| && Walked(valid, units[..n], seen, policies) && !Joins(valid, units[n], seen, policies)
    ensures !InventoryOk(valid, units)
  {
  }

  lemma WalkedAll(valid: SiteService -> bool, units: seq<SiteService>, seen: set<UnitName>,
                  policies: map<string, Policy>)
    requires Walked(valid, units, seen, policies) && units != []
    ensures InventoryOk(valid, units)
  {
  }

  // ----- listeners and probes

  function Listeners(d: Deployable): seq<string> {
    [d.primary.apiAddress, d.primary.fabric.clusterAddress]
    + (if d.standby.Some? then [d.standby.value.apiAddress, d.standby.value.fabric.clusterAddress] else [])
  }

  datatype Probe = Probe(port: int, path: string)

  function ProbeOf(s: Service): Probe {
    Probe(s.check.port, s.check.path)
  }

  function PortOf(split: string -> Option<HostPort>): string -> int {
    (a: string) => if split(a).Some? then split(a).value.port else 0
  }

  function Usable(split: string -> Option<HostPort>): string -> bool {
    (a: string) => split(a).Some? && PortOk(split(a).value.port)
  }

  /** No listener shares a port with another or with a probe, and no endpoint is probed twice. */
  ghost predicate PortsApart(split: string -> Option<HostPort>, d: Deployable) {
    && AllValid(Listeners(d), Usable(split))
    && Distinct(Listeners(d), PortOf(split))
    && (forall s, a :: s in d.services && a in Listeners(d) ==> PortOf(split)(a) != s.check.port)
    && Distinct(d.services, ProbeOf)
  }

  lemma PortsAreKeys(split: string -> Option<HostPort>, d: Deployable, taken: map<int, string>, s: Service)
    requires Indexes(taken, Listeners(d), PortOf(split))
    ensures s.check.port in taken <==> exists a :: a in Listeners(d) && PortOf(split)(a) == s.check.port
  {
  }

  /** Platform listeners first, then every probe against them and against each other. */
  method ValidatePorts(split: string -> Option<HostPort>, d: Deployable) returns (ok: bool)
    ensures ok <==> PortsApart(split, d)
  {
    var taken := Register(Listeners(d), Usable(split), PortOf(split));
    if taken.None? {
      return false;
    }
    forall s {
      PortsAreKeys(split, d, taken.value, s);
    }
    var probed := Register(d.services, (s: Service) => s.check.port !in taken.value, ProbeOf);
    ok := probed.Some?;
    assert ok ==> forall s, a :: s in d.services && a in Listeners(d) ==> PortOf(split)(a) != s.check.port;
  }
}
