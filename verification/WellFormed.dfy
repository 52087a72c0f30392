/**
 A reference for both validations of a descriptor: what a well-formed one is, said once by
 meaning and not in the order either program asks. Each validator's answer is proved to be it.
 */
module WellFormed {
  import opened Options
  import opened Registry
  import opened Text
  import opened Descriptor
  import B = BuilderValidation
  import V = PlatformValidation

  type Reader = string -> Option<int>

  /** The text is there, is a duration, and lasts. */
  predicate Lasts(read: Reader, s: string) {
    Trim(s) != "" && read(s).Some? && read(s).value >= 1
  }

  predicate Named(s: string) {
    s != "" && Trim(s) == s
  }

  predicate UsablePort(port: int) {
    0 < port < 65536
  }

  /** No two places of the list have one key. */
  ghost predicate Singly<U, K>(items: seq<U>, key: U -> K) {
    forall i, j :: 0 <= i < |items| && 0 <= j < |items| && key(items[i]) == key(items[j]) ==> i == j
  }

  lemma SinglyMeans<U, K, L>(items: seq<U>, key: U -> K, other: U -> L)
    requires forall u, v :: u in items && v in items ==> (key(u) == key(v) <==> other(u) == other(v))
    ensures Distinct(items, key) <==> Singly(items, other)
  {
    assert forall i :: 0 <= i < |items| ==> items[i] in items;
    if Singly(items, other) {
      forall i, j | 0 <= i < j < |items|
        ensures key(items[i]) != key(items[j])
      {
        assert other(items[i]) == other(items[j]) ==> i == j;
      }
    }
    if Distinct(items, key) {
      DistinctEitherWay(items, key);
    }
  }

  lemma DistinctEitherWay<U, K>(items: seq<U>, key: U -> K)
    requires Distinct(items, key)
    ensures forall i, j :: 0 <= i < |items| && 0 <= j < |items| && i != j ==> key(items[i]) != key(items[j])
  {
    forall i, j | 0 <= i < |items| && 0 <= j < |items| && i != j
      ensures key(items[i]) != key(items[j])
    {
      if i < j {
        assert key(items[i]) != key(items[j]);
      } else {
        assert key(items[j]) != key(items[i]);
      }
    }
  }

  // ----- the services a machine hosts

  predicate Probeable(x: Syntax, read: Reader, c: Check) {
    && c.kind == "http" && UsablePort(c.port) && x.target(c.path) && c.retries > 0
    && Lasts(read, c.interval) && Lasts(read, c.timeout) && read(c.timeout).value < read(c.interval).value
  }

  /** There are services, each with a name of its own, a role it can play and a probe that can run. */
  ghost predicate HostsWell(x: Syntax, read: Reader, services: seq<Service>) {
    && |services| > 0
    && (forall i :: 0 <= i < |services| ==>
          var s := services[i];
          Named(s.name) && (s.role == "master" || s.role == "slave") && Probeable(x, read, s.check))
    && Singly(services, (s: Service) => s.name)
  }

  lemma HostedMeans(x: Syntax, read: Reader, services: seq<Service>)
    ensures HostedOk(x, read, services) <==> HostsWell(x, read, services)
  {
    forall i | 0 <= i < |services|
      ensures ServiceOk(x, read, services[i])
              <==> var s := services[i];
                   Named(s.name) && (s.role == "master" || s.role == "slave") && Probeable(x, read, s.check)
    {
    }
    SinglyMeans(services, NameOf, (s: Service) => s.name);
  }

  // ----- the site's inventory

  predicate UnitWell(read: Reader, u: SiteService) {
    && Named(u.machine) && Named(u.service) && Named(u.profile)
    && (u.role == "master" || u.role == "slave")
    && (u.observers == ["primary"] || u.observers == ["primary", "standby"])
    && Lasts(read, u.freshFor)
  }

  /** There are units, each well formed and listed once, and units of one machine say the same of it. */
  ghost predicate ListsWell(read: Reader, units: seq<SiteService>) {
    && |units| > 0
    && (forall i :: 0 <= i < |units| ==> UnitWell(read, units[i]))
    && (forall u, v :: u in units && v in units && u.machine == v.machine ==>
          u.profile == v.profile && u.observers == v.observers)
    && Singly(units, (u: SiteService) => (u.machine, u.service))
  }

  lemma ObserversMean(roles: seq<string>)
    ensures ObserversOk(roles) <==> roles == ["primary"] || roles == ["primary", "standby"]
  {
    assert OBSERVERS[..1] == ["primary"] && OBSERVERS[..2] == ["primary", "standby"];
  }

  lemma InventoryMeans(read: Reader, units: seq<SiteService>)
    ensures InventoryOk(EntryOk(read), units) <==> ListsWell(read, units)
  {
    forall i | 0 <= i < |units|
      ensures EntryOk(read)(units[i]) <==> UnitWell(read, units[i])
    {
      ObserversMean(units[i].observers);
    }
    SinglyMeans(units, UnitOf, (u: SiteService) => (u.machine, u.service));
    assert forall u, v :: u in units && v in units ==>
             (PolicyOf(u) == PolicyOf(v) <==> u.profile == v.profile && u.observers == v.observers);
  }

  // ----- both halves about this machine

  /** The instances this machine deploys, as observers are named. */
  function OwnObservers(d: Deployable): seq<string> {
    if d.standby.Some? then ["primary", "standby"] else ["primary"]
  }

  /** Two intervals and a timeout, where 64 bits hold it. */
  predicate DerivesTo(x: Syntax, c: Check, freshFor: int) {
    && x.duration(Trim(c.interval)).Some? && x.duration(Trim(c.timeout)).Some?
    && freshFor == 2 * x.duration(Trim(c.interval)).value + x.duration(Trim(c.timeout)).value
    && freshFor <= 0x7FFF_FFFF_FFFF_FFFF
  }

  /** The unit is about a service of this machine and says of it what the machine says. */
  predicate Tells(x: Syntax, d: Deployable, s: Service, u: SiteService) {
    && u.machine == Trim(d.machine) && u.service == s.name
    && u.role == s.role && u.profile == Trim(d.profile) && u.observers == OwnObservers(d)
    && x.duration(Trim(u.freshFor)).Some? && DerivesTo(x, s.check, x.duration(Trim(u.freshFor)).value)
  }

  /** The units about this machine are of its services, each told by one of them. */
  ghost predicate TellsItself(x: Syntax, d: Deployable) {
    && (forall s :: s in d.services ==> exists u :: u in d.siteServices && Tells(x, d, s, u))
    && (forall u :: u in d.siteServices && u.machine == Trim(d.machine) ==>
          exists s :: s in d.services && u.service == s.name)
  }

  lemma MatchingMeans(x: Syntax, d: Deployable, s: Service, u: SiteService)
    ensures UnitOf(u) == UnitName(Trim(d.machine), s.name) && Matches(x, d, s, u) <==> Tells(x, d, s, u)
  {
    assert OBSERVERS[..1] == ["primary"];
  }

  lemma HalvesMean(x: Syntax, d: Deployable)
    ensures HalvesAgree(x, d) <==> TellsItself(x, d)
  {
    forall s, u {
      MatchingMeans(x, d, s, u);
    }
    forall s | s in d.services
      ensures Lists(x, d, s) <==> exists u :: u in d.siteServices && Tells(x, d, s, u)
    {
      if u :| u in d.siteServices && Tells(x, d, s, u) {
        assert UnitOf(u) == UnitName(Trim(d.machine), s.name) && Matches(x, d, s, u);
      }
    }
    forall u | u in d.siteServices && u.machine == Trim(d.machine)
      ensures Hosts(d.services, u.service) <==> exists s :: s in d.services && u.service == s.name
    {
    }
  }

  // ----- ports

  /** The addresses every deployed instance binds: its API and its broker's cluster listener. */
  function Bound(d: Deployable): seq<string> {
    var p := d.primary;
    if d.standby.None? then [p.apiAddress, p.fabric.clusterAddress]
    else
      var s := d.standby.value;
      [p.apiAddress, p.fabric.clusterAddress, s.apiAddress, s.fabric.clusterAddress]
  }

  /** Every listener has a usable port of its own that no probe asks, and no two services answer at one place. */
  ghost predicate KeepsApart(split: string -> Option<HostPort>, d: Deployable) {
    var bound := Bound(d);
    && (forall a :: a in bound ==> split(a).Some? && UsablePort(split(a).value.port))
    && Singly(bound, PortAt(split))
    && (forall a, s :: a in bound && s in d.services ==> PortAt(split)(a) != s.check.port)
    && Singly(d.services, (s: Service) => (s.check.port, s.check.path))
  }

  function PortAt(split: string -> Option<HostPort>): string -> int {
    (a: string) => if split(a).None? then -1 else split(a).value.port
  }

  lemma PortsMean(split: string -> Option<HostPort>, d: Deployable)
    ensures PortsApart(split, d) <==> KeepsApart(split, d)
  {
    var bound := Bound(d);
    assert bound == Listeners(d);
    SinglyMeans(d.services, ProbeOf, (s: Service) => (s.check.port, s.check.path));
    assert AllValid(bound, Usable(split))
           <==> forall a :: a in bound ==> split(a).Some? && UsablePort(split(a).value.port);
    if AllValid(bound, Usable(split)) {
      assert forall a :: a in bound ==> PortOf(split)(a) == PortAt(split)(a);
      SinglyMeans(bound, PortOf(split), PortAt(split));
    }
  }

  // ----- what the build tool asks beyond

  ghost predicate Deployed(d: Deployable, i: Instance) {
    i == d.primary || d.standby == Some(i)
  }

  /** An instance that serves its API on loopback, its broker on the machine's own ip, and dials none but peers. */
  ghost predicate Serves(x: Syntax, d: Deployable, i: Instance) {
    var api, cluster := x.split(i.apiAddress), x.split(i.fabric.clusterAddress);
    && api.Some? && Trim(i.apiAddress) != "" && Trim(api.value.host) != "" && x.loopback(api.value.host)
    && cluster.Some? && Trim(i.fabric.clusterAddress) != "" && Trim(cluster.value.host) != ""
    && x.sameIp(cluster.value.host, d.ip)
    && i.service.Some? && Trim(i.service.value) != ""
    && Trim(i.eventsFile) != "" && Trim(i.stateFile) != "" && Trim(i.logFile) != ""
    && Trim(i.fabric.serverName) != "" && Trim(i.fabric.clusterName) != ""
    && Lasts(x.duration, i.readHeaderTimeout) && Lasts(x.duration, i.shutdownTimeout)
    && (forall r :: r in i.fabric.routes ==> x.route(r).Some? && x.route(r) != Some(i.fabric.clusterAddress))
    && Singly(i.fabric.routes, x.route)
  }

  /** A lease exactly beside a standby, on a named file, renewed before it runs out. */
  ghost predicate Leased(x: Syntax, d: Deployable) {
    && (d.lease.Some? <==> d.standby.Some?)
    && (d.lease.Some? ==>
          var l := d.lease.value;
          && Trim(l.file) != ""
          && Lasts(x.duration, l.duration) && Lasts(x.duration, l.renewal)
          && Lasts(x.duration, l.healthCheck) && Lasts(x.duration, l.failback)
          && x.duration(l.renewal).value < x.duration(l.duration).value)
  }

  /** Every local file of the machine. */
  function LocalFiles(d: Deployable): seq<string> {
    [d.machineEventsFile] + [d.primary.eventsFile, d.primary.stateFile, d.primary.logFile]
    + (if d.standby.None? then [] else [d.standby.value.eventsFile, d.standby.value.stateFile, d.standby.value.logFile])
    + (if d.lease.None? then [] else [d.lease.value.file])
  }

  /** The texts that place a machine. */
  function Identity(d: Deployable): seq<string> {
    [d.platform, d.project, d.environment, d.site, d.machine, d.profile, d.machineEventsFile]
  }

  /** What the build tool accepts, by meaning. */
  ghost predicate Deployables(x: Syntax, d: Deployable) {
    && (forall s :: s in Identity(d) ==> Trim(s) != "")
    && x.ip(d.ip)
    && Leased(x, d)
    && HostsWell(x, x.duration, d.services) && ListsWell(x.duration, d.siteServices) && TellsItself(x, d)
    && (forall i :: Deployed(d, i) ==> Serves(x, d, i))
    && (d.standby.Some? ==> d.primary.service != d.standby.value.service)
    && KeepsApart(x.split, d)
    && Singly(LocalFiles(d), x.pathKey)
  }

  lemma RoutesMean(x: Syntax, f: Fabric)
    ensures B.RoutesOk(x, f)
            <==> && (forall r :: r in f.routes ==> x.route(r).Some? && x.route(r) != Some(f.clusterAddress))
                 && Singly(f.routes, x.route)
  {
    var key := (r: string) => if x.route(r).Some? then x.route(r).value else "";
    if forall r :: r in f.routes ==> x.route(r).Some? {
      SinglyMeans(f.routes, key, x.route);
    }
    assert forall i :: 0 <= i < |f.routes| ==> f.routes[i] in f.routes;
  }

  /**
   An instance serves exactly if the tool's parts, ports apart from its listeners', accept it
   and it has an identity.
   */
  lemma PartsMean(x: Syntax, d: Deployable, i: Instance)
    requires x.split(i.apiAddress).Some? ==> UsablePort(x.split(i.apiAddress).value.port)
    requires x.split(i.fabric.clusterAddress).Some? ==> UsablePort(x.split(i.fabric.clusterAddress).value.port)
    requires x.pathKey(i.eventsFile) != x.pathKey(i.stateFile)
    ensures Serves(x, d, i) <==> B.InstanceOk(x, d.ip, i) && i.service.Some? && !Blank(i.service.value)
  {
    RoutesMean(x, i.fabric);
  }

  lemma FilesMean(x: Syntax, d: Deployable)
    requires d.lease.Some? <==> d.standby.Some?
    ensures Distinct(B.Files(d), x.pathKey) <==> Singly(LocalFiles(d), x.pathKey)
  {
    assert B.Files(d) == LocalFiles(d);
    SinglyMeans(LocalFiles(d), x.pathKey, x.pathKey);
  }

  lemma OwnFilesApart(x: Syntax, d: Deployable)
    requires Distinct(B.Files(d), x.pathKey) && (d.lease.Some? <==> d.standby.Some?)
    ensures forall i :: Deployed(d, i) ==> x.pathKey(i.eventsFile) != x.pathKey(i.stateFile)
  {
    var files := B.Files(d);
    assert x.pathKey(files[1]) != x.pathKey(files[2]);
    if d.standby.Some? {
      assert x.pathKey(files[4]) != x.pathKey(files[5]);
    }
  }

  lemma TextsMean(d: Deployable)
    ensures (forall s :: s in Identity(d) ==> Trim(s) != "")
            <==> && !Blank(d.platform) && !Blank(d.project) && !Blank(d.environment) && !Blank(d.site)
                 && !Blank(d.machine) && !Blank(d.profile) && !Blank(d.machineEventsFile)
  {
    var texts := Identity(d);
    assert (forall s :: s in texts ==> Trim(s) != "") <==> forall k :: 0 <= k < |texts| ==> Trim(texts[k]) != "";
  }

  lemma LeaseLasts(x: Syntax, l: LeaseBlock)
    ensures B.LeaseOk(x, l)
            <==> && Trim(l.file) != ""
                 && Lasts(x.duration, l.duration) && Lasts(x.duration, l.renewal)
                 && Lasts(x.duration, l.healthCheck) && Lasts(x.duration, l.failback)
                 && x.duration(l.renewal).value < x.duration(l.duration).value
  {
  }

  lemma IdentityMeans(x: Syntax, d: Deployable)
    ensures B.IdentityOk(x, d)
            <==> && (forall s :: s in Identity(d) ==> Trim(s) != "")
                 && x.ip(d.ip) && Leased(x, d)
  {
    TextsMean(d);
    if d.lease.Some? {
      LeaseLasts(x, d.lease.value);
    }
  }

  lemma BoundAreUsable(split: string -> Option<HostPort>, d: Deployable)
    requires KeepsApart(split, d)
    ensures forall i :: Deployed(d, i) ==>
              && split(i.apiAddress).Some? && UsablePort(split(i.apiAddress).value.port)
              && split(i.fabric.clusterAddress).Some? && UsablePort(split(i.fabric.clusterAddress).value.port)
  {
    assert forall i :: Deployed(d, i) ==> i.apiAddress in Bound(d) && i.fabric.clusterAddress in Bound(d);
  }

  lemma InstancesMean(x: Syntax, d: Deployable)
    requires KeepsApart(x.split, d) && Distinct(B.Files(d), x.pathKey) && (d.lease.Some? <==> d.standby.Some?)
    ensures B.InstanceOk(x, d.ip, d.primary) && (d.standby.Some? ==> B.InstanceOk(x, d.ip, d.standby.value))
            && B.ServiceIdentitiesOk(d)
            <==> (forall i :: Deployed(d, i) ==> Serves(x, d, i))
                 && (d.standby.Some? ==> d.primary.service != d.standby.value.service)
  {
    BoundAreUsable(x.split, d);
    OwnFilesApart(x, d);
    PartsMean(x, d, d.primary);
    if d.standby.Some? {
      PartsMean(x, d, d.standby.value);
    }
    assert (forall i :: Deployed(d, i) ==> Serves(x, d, i))
           <==> Serves(x, d, d.primary) && (d.standby.Some? ==> Serves(x, d, d.standby.value));
  }

  /** The build tool accepts exactly the descriptors that are well formed by meaning. */
  lemma AcceptedExactlyWhen(x: Syntax, d: Deployable)
    ensures B.Accepts(x, d) <==> Deployables(x, d)
  {
    IdentityMeans(x, d);
    HostedMeans(x, x.duration, d.services);
    InventoryMeans(x.duration, d.siteServices);
    HalvesMean(x, d);
    PortsMean(x.split, d);
    if d.lease.Some? <==> d.standby.Some? {
      FilesMean(x, d);
      if KeepsApart(x.split, d) && Distinct(B.Files(d), x.pathKey) {
        InstancesMean(x, d);
      }
    }
  }

  // ----- what acceptance promises

  /**
   An accepted machine keeps its API to itself and its broker to its site: every instance
   serves its API on loopback and its cluster on the machine's ip, and routes to no listener of its own.
   */
  lemma ApiStaysLocal(x: Syntax, d: Deployable, i: Instance)
    requires B.Accepts(x, d) && Deployed(d, i)
    ensures x.split(i.apiAddress).Some? && x.loopback(x.split(i.apiAddress).value.host)
    ensures x.split(i.fabric.clusterAddress).Some? && x.sameIp(x.split(i.fabric.clusterAddress).value.host, d.ip)
    ensures forall r :: r in i.fabric.routes ==> x.route(r).Some? && x.route(r).value != i.fabric.clusterAddress
  {
    AcceptedExactlyWhen(x, d);
  }

  /** Whatever else a descriptor says, an API that is not on loopback is refused. */
  lemma ExposedApiIsRefused(x: Syntax, d: Deployable, i: Instance)
    requires Deployed(d, i) && x.split(i.apiAddress).Some? && !x.loopback(x.split(i.apiAddress).value.host)
    ensures !B.Accepts(x, d)
  {
    if B.Accepts(x, d) {
      ApiStaysLocal(x, d, i);
    }
  }

  /** An accepted machine whose API is moved off loopback is no longer accepted. */
  lemma ExposingTheApiIsRefused(x: Syntax, d: Deployable, address: string)
    requires B.Accepts(x, d) && x.split(address).Some? && !x.loopback(x.split(address).value.host)
    ensures !B.Accepts(x, d.(primary := d.primary.(apiAddress := address)))
  {
    ExposedApiIsRefused(x, d.(primary := d.primary.(apiAddress := address)), d.primary.(apiAddress := address));
  }

  // ----- what the platform decodes

  /** The timings of an instance parse; how long they last is not asked here. */
  ghost predicate TimingsParse(x: Syntax, i: Instance) {
    x.duration(i.readHeaderTimeout).Some? && x.duration(i.shutdownTimeout).Some?
  }

  /**
   What the platform decodes, by meaning: durations and addresses are read trimmed, and the
   rest is not its concern.
   */
  ghost predicate Decodables(x: Syntax, d: Deployable) {
    && (forall i :: Deployed(d, i) ==> TimingsParse(x, i))
    && (d.lease.Some? <==> d.standby.Some?)
    && (d.lease.Some? ==>
          var l := d.lease.value;
          forall s :: s in [l.duration, l.renewal, l.healthCheck, l.failback] ==> x.duration(s).Some?)
    && HostsWell(x, (s: string) => x.duration(Trim(s)), d.services)
    && ListsWell((s: string) => x.duration(Trim(s)), d.siteServices) && TellsItself(x, d)
    && KeepsApart((s: string) => x.split(Trim(s)), d)
  }

  lemma LeaseParsing(x: Syntax, l: LeaseBlock)
    ensures V.LeaseParses(x, l)
            <==> forall s :: s in [l.duration, l.renewal, l.healthCheck, l.failback] ==> x.duration(s).Some?
  {
    var texts := [l.duration, l.renewal, l.healthCheck, l.failback];
    assert (forall s :: s in texts ==> x.duration(s).Some?)
      <==> forall k :: 0 <= k < |texts| ==> x.duration(texts[k]).Some?;
  }

  lemma GuardsMean(x: Syntax, d: Deployable)
    ensures V.GuardsOk(x, d)
            <==> && (forall i :: Deployed(d, i) ==> TimingsParse(x, i))
                 && (d.lease.Some? <==> d.standby.Some?)
                 && (d.lease.Some? ==> V.LeaseParses(x, d.lease.value))
  {
    assert (forall i :: Deployed(d, i) ==> TimingsParse(x, i))
           <==> TimingsParse(x, d.primary) && (d.standby.Some? ==> TimingsParse(x, d.standby.value));
  }

  lemma SameReadingHosts(x: Syntax, read: Reader, other: Reader, services: seq<Service>)
    requires forall s :: read(s) == other(s)
    ensures HostsWell(x, read, services) <==> HostsWell(x, other, services)
  {
    assert forall s :: Lasts(read, s) == Lasts(other, s);
    assert forall c :: Probeable(x, read, c) == Probeable(x, other, c);
  }

  lemma SameReadingLists(read: Reader, other: Reader, units: seq<SiteService>)
    requires forall s :: read(s) == other(s)
    ensures ListsWell(read, units) <==> ListsWell(other, units)
  {
    assert forall s :: Lasts(read, s) == Lasts(other, s);
    assert forall u :: UnitWell(read, u) == UnitWell(other, u);
  }

  lemma SameReadingPorts(split: string -> Option<HostPort>, other: string -> Option<HostPort>, d: Deployable)
    requires forall s :: split(s) == other(s)
    ensures KeepsApart(split, d) <==> KeepsApart(other, d)
  {
    assert forall a :: PortAt(split)(a) == PortAt(other)(a);
  }

  /** The platform decodes exactly the descriptors that are decodable by meaning. */
  lemma DecodesExactlyWhen(x: Syntax, d: Deployable)
    ensures V.Decodes(x, d) <==> Decodables(x, d)
  {
    var read, split := V.Trimmed(x.duration), V.Trimmed(x.split);
    GuardsMean(x, d);
    if d.lease.Some? {
      LeaseParsing(x, d.lease.value);
    }
    HostedMeans(x, read, d.services);
    InventoryMeans(read, d.siteServices);
    HalvesMean(x, d);
    PortsMean(split, d);
    SameReadingHosts(x, read, (s: string) => x.duration(Trim(s)), d.services);
    SameReadingLists(read, (s: string) => x.duration(Trim(s)), d.siteServices);
    SameReadingPorts(split, (s: string) => x.split(Trim(s)), d);
  }
}
