/**
 When a valid project has a plan. Validation of the blueprint promises almost everything the
 validation of the resolved records asks; here is exactly what it leaves out.
 */
module Plans {
  import opened Options
  import opened Registry
  import opened Sorting
  import opened Text
  import opened Blueprint
  import opened Mesh
  import opened Resolution
  import D = Descriptor
  import B = BuilderValidation
  import V = PlatformValidation
  import P = PlatformStartup
  import A = Acceptance

  // ----- the parts of a record

  lemma TimedIsTrimmed(x: D.Syntax, s: string)
    requires D.Sane(x) && D.Positive(x.duration, s)
    ensures s == Trim(s)
  {
  }

  lemma ServiceUnchanged(x: D.Syntax, s: D.Service)
    requires D.Sane(x) && D.ServiceOk(x, x.duration, s)
    ensures ServiceFrom(s) == s
  {
    TimedIsTrimmed(x, s.check.interval);
    TimedIsTrimmed(x, s.check.timeout);
  }

  /** Resolution trims what validation already requires to be trimmed. */
  lemma ServicesUnchanged(x: D.Syntax, services: seq<D.Service>)
    requires D.Sane(x) && D.HostedOk(x, x.duration, services)
    ensures ServicesFrom(services) == services
  {
    forall i | 0 <= i < |services|
      ensures ServiceFrom(services[i]) == services[i]
    {
      ServiceUnchanged(x, services[i]);
    }
  }

  lemma Addressed(x: D.Syntax, w: D.Writer, ip: string, port: int)
    requires D.Sane(x) && D.RoundTrips(x, w) && x.ip(ip) && D.PortOk(port)
    ensures B.AddressOk(x, w.join(ip, port)) && x.split(w.join(ip, port)) == Some(D.HostPort(ip, port))
  {
  }

  lemma ServerNamed(m: Machine, standby: bool)
    ensures !Blank(ServerName(m, standby))
  {
    var name := ServerName(m, standby);
    BlankIsSpaces(name);
    assert name[|m.name|] == '-' && '-' in name && !IsSpace('-');
  }

  lemma ClusterNamed(s: Site)
    requires SiteOk(s)
    ensures !Blank(ClusterName(s))
  {
  }

  lemma FilesNamed(x: D.Syntax, m: Machine, standby: bool)
    requires FilesOk(x, m) && PolicyOf(m, standby).Some?
    ensures var f := FilesOf(m, standby);
            && !Blank(f.events) && !Blank(f.state) && !Blank(f.log) && x.pathKey(f.events) != x.pathKey(f.state)
  {
    var f, all := FilesOf(m, standby), OwnFiles(m);
    var p := PolicyOf(m, standby).value.files;
    TrimmedStays(p.events);
    TrimmedStays(p.state);
    TrimmedStays(p.log);
    var at := if standby then 3 else 0;
    assert all[at] == f.events && all[at + 1] == f.state && all[at + 2] == f.log;
  }

  lemma EndpointsPass(x: D.Syntax, m: Machine, standby: bool)
    requires D.Sane(x) && BlocksOk(x, m) && EndpointsOf(m, standby).Some?
    ensures var e := EndpointsOf(m, standby).value;
            && D.PortOk(e.api) && D.PortOk(e.cluster)
            && B.Timed(x, e.readHeaderTimeout) && B.Timed(x, e.shutdownTimeout)
  {
    var a := PolicyOf(m, standby).value.api.value;
    assert EndpointsOk(x, PolicyOf(m, standby).value);
    TimedIsTrimmed(x, a.readHeaderTimeout);
    TimedIsTrimmed(x, a.shutdownTimeout);
  }

  /** What a record holds of an instance passes as far as the instance alone is concerned. */
  lemma PartsPass(x: D.Syntax, w: D.Writer, s: Site, m: Machine, standby: bool)
    requires D.Sane(x) && D.RoundTrips(x, w) && SiteOk(s) && x.ip(m.ip) && BlocksOk(x, m) && FilesOk(x, m)
    requires EndpointsOf(m, standby).Some?
    ensures B.PartsOk(x, m.ip, InstanceOf(w, s, m, standby).value)
  {
    var e := EndpointsOf(m, standby).value;
    EndpointsPass(x, m, standby);
    FilesNamed(x, m, standby);
    ServerNamed(m, standby);
    ClusterNamed(s);
    Addressed(x, w, D.LOOPBACK, e.api);
    Addressed(x, w, m.ip, e.cluster);
  }

  // ----- its routes

  lemma NodeAddressed(x: D.Syntax, m: Machine, n: Node)
    requires x.ip(m.ip) && BlocksOk(x, m) && n in NodesOf(m)
    ensures x.ip(n.route.ip) && D.PortOk(n.route.port)
  {
    NodeIsItsMachines(m, n);
    assert n in NodeAt(m, n.standby);
    assert EndpointsOk(x, PolicyOf(m, n.standby).value);
  }

  /** A property of each machine holds of any one. */
  lemma MachineOfSite(x: D.Syntax, machines: seq<Machine>, m: Machine)
    requires MachinesOk(x, machines) && m in machines
    ensures MachineOk(x, m)
  {
    var i :| 0 <= i < |machines| && machines[i] == m;
    assert OkMachine(x)(machines[i]);
  }

  lemma NodesAddressed(x: D.Syntax, machines: seq<Machine>, n: Node)
    requires MachinesOk(x, machines) && n in Nodes(machines)
    ensures x.ip(n.route.ip) && D.PortOk(n.route.port)
  {
    InNodes(machines, n);
    var m :| m in machines && n in NodesOf(m);
    MachineOfSite(x, machines, m);
    NodeAddressed(x, m, n);
  }

  lemma UrlsPass(x: D.Syntax, w: D.Writer, routes: seq<Route>, self: Route, f: D.Fabric)
    requires D.RoundTrips(x, w) && NoRepeats(routes) && self !in routes
    requires x.ip(self.ip) && D.PortOk(self.port)
    requires forall r :: r in routes ==> x.ip(r.ip) && D.PortOk(r.port)
    requires f.routes == Urls(w, routes) && f.clusterAddress == w.join(self.ip, self.port)
    ensures B.RoutesOk(x, f)
  {
    forall i | 0 <= i < |routes|
      ensures x.route(f.routes[i]) == Some(w.join(routes[i].ip, routes[i].port))
      ensures x.split(w.join(routes[i].ip, routes[i].port)) == Some(D.HostPort(routes[i].ip, routes[i].port))
      ensures routes[i] != self
    {
      assert routes[i] in routes;
    }
    assert x.split(f.clusterAddress) == Some(D.HostPort(self.ip, self.port));
  }

  lemma RoutesPass(x: D.Syntax, w: D.Writer, p: Project, k: nat, m: Machine, standby: bool)
    requires D.RoundTrips(x, w) && D.Sane(x) && ProjectOk(x, p) && k < |p.sites| && m in p.sites[k].machines
    requires EndpointsOf(m, standby).Some?
    ensures B.RoutesOk(x, InstanceOf(w, p.sites[k], m, standby).value.fabric)
  {
    var machines := p.sites[k].machines;
    var self := Node(m.name, standby, Route(m.ip, EndpointsOf(m, standby).value.cluster));
    assert self in NodesOf(m);
    InNodes(machines, self);
    SiteMachinesOk(x, p, k);
    RoutesAreTheOthers(x, p, k, self);
    var routes := RoutesFrom(Nodes(machines), m.name, standby);
    forall r | r in routes
      ensures x.ip(r.ip) && D.PortOk(r.port)
    {
      var n :| n in Nodes(machines) && n.route == r;
      NodesAddressed(x, machines, n);
    }
    NodesAddressed(x, machines, self);
    assert Trim(m.ip) == m.ip;
    UrlsPass(x, w, routes, self.route, InstanceOf(w, p.sites[k], m, standby).value.fabric);
  }

  // ----- its listeners, files and identities

  function Joined(w: D.Writer, m: Machine, standby: bool): seq<string> {
    var e := EndpointsOf(m, standby);
    if e.None? then [] else [w.join(D.LOOPBACK, e.value.api), w.join(Trim(m.ip), e.value.cluster)]
  }

  /** Listener i of the record is on the i-th authored port. */
  ghost predicate OnPorts(x: D.Syntax, addresses: seq<string>, ports: seq<int>) {
    && |addresses| == |ports|
    && forall i :: 0 <= i < |ports| ==> D.Usable(x.split)(addresses[i]) && D.PortOf(x.split)(addresses[i]) == ports[i]
  }

  lemma JoinedOnPorts(x: D.Syntax, w: D.Writer, m: Machine, standby: bool)
    requires D.Sane(x) && D.RoundTrips(x, w) && x.ip(m.ip) && BlocksOk(x, m)
    ensures OnPorts(x, Joined(w, m, standby), PortsOf(EndpointsOf(m, standby)))
  {
    if EndpointsOf(m, standby).Some? {
      EndpointsPass(x, m, standby);
      var e := EndpointsOf(m, standby).value;
      Addressed(x, w, D.LOOPBACK, e.api);
      Addressed(x, w, m.ip, e.cluster);
    }
  }

  lemma ApartByPort(x: D.Syntax, addresses: seq<string>, ports: seq<int>)
    requires OnPorts(x, addresses, ports) && Distinct(ports, (p: int) => p)
    ensures AllValid(addresses, D.Usable(x.split)) && Distinct(addresses, D.PortOf(x.split))
    ensures forall a :: a in addresses ==> D.PortOf(x.split)(a) in ports
  {
    forall i, j | 0 <= i < j < |addresses|
      ensures D.PortOf(x.split)(addresses[i]) != D.PortOf(x.split)(addresses[j])
    {
      assert ((p: int) => p)(ports[i]) != ((p: int) => p)(ports[j]);
    }
  }

  lemma PortsPass(x: D.Syntax, w: D.Writer, m: Machine, d: D.Deployable)
    requires D.Sane(x) && D.RoundTrips(x, w) && x.ip(m.ip) && BlocksOk(x, m) && PortsApart(m)
    requires d.services == m.services && D.Listeners(d) == Joined(w, m, false) + Joined(w, m, true)
    ensures D.PortsApart(x.split, d)
  {
    JoinedOnPorts(x, w, m, false);
    JoinedOnPorts(x, w, m, true);
    ApartByPort(x, D.Listeners(d), ListenerPorts(m));
    forall s, a | s in d.services && a in D.Listeners(d)
      ensures D.PortOf(x.split)(a) != s.check.port
    {
      var i :| 0 <= i < |m.services| && m.services[i] == s;
    }
  }

  /** No instance file is the lease file, which the blueprint's own validation does not ask. */
  predicate LeaseFileApart(x: D.Syntax, m: Machine) {
    LeaseOf(m).Some? ==> forall f :: f in OwnFiles(m) ==> x.pathKey(f) != x.pathKey(LeaseOf(m).value.file)
  }

  /** Keys of a list with one item before and perhaps one after. */
  lemma DistinctBetween<K>(first: string, files: seq<string>, last: seq<string>, key: string -> K)
    requires |last| <= 1 && Distinct(files, key) && forall f :: f in files + last ==> key(f) != key(first)
    ensures Distinct([first] + files + last, key) <==> forall f, l :: f in files && l in last ==> key(f) != key(l)
  {
    var all := [first] + files + last;
    forall i | 1 <= i < |all|
      ensures all[i] == (files + last)[i - 1] && all[i] in files + last
    {
    }
    if last != [] {
      forall f | f in files
        ensures Distinct(all, key) ==> key(f) != key(last[0])
      {
        var i :| 0 <= i < |files| && files[i] == f;
        assert all[i + 1] == f && all[|all| - 1] == last[0];
      }
    }
  }

  function LeaseFiles(m: Machine): seq<string> {
    if LeaseOf(m).None? then [] else [LeaseOf(m).value.file]
  }

  lemma FilesPassExactlyWhen(x: D.Syntax, m: Machine, files: seq<string>)
    requires FilesOk(x, m) && StoreOk(x, m)
    requires files == [m.eventstore] + OwnFiles(m) + LeaseFiles(m)
    ensures Distinct(files, x.pathKey) <==> LeaseFileApart(x, m)
  {
    DistinctBetween(m.eventstore, OwnFiles(m), LeaseFiles(m), x.pathKey);
  }

  predicate Owns(i: D.Instance, f: Files) {
    i.eventsFile == f.events && i.stateFile == f.state && i.logFile == f.log
  }

  lemma InstanceOwns(w: D.Writer, s: Site, m: Machine, standby: bool)
    requires EndpointsOf(m, standby).Some?
    ensures Owns(InstanceOf(w, s, m, standby).value, FilesOf(m, standby))
  {
  }

  lemma FilesAreListed(m: Machine, d: D.Deployable)
    requires d.machineEventsFile == m.eventstore && Owns(d.primary, FilesOf(m, false))
    requires d.lease == LeaseOf(m) && d.standby.Some? == PolicyOf(m, true).Some? == LeaseOf(m).Some?
    requires d.standby.Some? ==> Owns(d.standby.value, FilesOf(m, true))
    ensures B.Files(d) == [m.eventstore] + OwnFiles(m) + LeaseFiles(m)
  {
    var f, g := FilesOf(m, false), FilesOf(m, true);
    if d.standby.None? {
      assert B.Files(d) == [m.eventstore, f.events, f.state, f.log];
      assert OwnFiles(m) == [f.events, f.state, f.log] && LeaseFiles(m) == [];
    } else {
      assert B.Files(d) == [m.eventstore, f.events, f.state, f.log, g.events, g.state, g.log, d.lease.value.file];
      assert OwnFiles(m) == [f.events, f.state, f.log, g.events, g.state, g.log];
    }
  }

  lemma IdentitiesPass(x: D.Syntax, w: D.Writer, platform: string, p: Project, s: Site, m: Machine,
                       inventory: seq<D.SiteService>)
    requires BlocksOk(x, m) && WinServicesOk(m)
    ensures B.ServiceIdentitiesOk(RecordOf(w, platform, p, s, m, inventory))
  {
  }

  lemma LeasePasses(x: D.Syntax, m: Machine)
    requires BlocksOk(x, m) && LeaseOk(x, m.standby.value)
    ensures EndpointsOf(m, false).Some?
    ensures EndpointsOf(m, true).Some? == PolicyOf(m, true).Some? == LeaseOf(m).Some?
    ensures LeaseOf(m).Some? ==> B.LeaseOk(x, LeaseOf(m).value)
  {
  }

  lemma IdentityPassesExactlyWhen(x: D.Syntax, w: D.Writer, platform: string, p: Project, s: Site, m: Machine,
                                  inventory: seq<D.SiteService>)
    requires !Blank(p.name) && !Blank(p.environment) && SiteOk(s)
    requires IdentityOk(x, m) && BlocksOk(x, m) && StoreOk(x, m) && LeaseOk(x, m.standby.value)
    ensures B.IdentityOk(x, RecordOf(w, platform, p, s, m, inventory)) <==> !Blank(platform)
  {
    LeasePasses(x, m);
  }

  // ----- its inventory

  /** What a valid machine's own listing needs. */
  ghost predicate Hosting(x: D.Syntax, m: Machine) {
    !Blank(m.name) && !Blank(m.profile) && D.HostedOk(x, x.duration, m.services)
  }

  ghost predicate AllHosting(x: D.Syntax, machines: seq<Machine>) {
    forall i :: 0 <= i < |machines| ==> Hosting(x, machines[i])
  }

  lemma {:induction false} EntriesAreListed(listing: Listing, m: Machine, n: nat)
    requires n <= |m.services| && EntriesOf(listing, m, n).Some?
    ensures |EntriesOf(listing, m, n).value| == n
    ensures forall j :: 0 <= j < n ==> listing(m, m.services[j]) == Some(EntriesOf(listing, m, n).value[j])
  {
    if n > 0 {
      EntriesAreListed(listing, m, n - 1);
    }
  }

  lemma FreshnessReadsBack(x: D.Syntax, w: D.Writer, c: D.Check)
    requires D.Sane(x) && D.RoundTrips(x, w) && D.CheckOk(x, x.duration, c) && D.FreshFor(x, c).Some?
    ensures var written := w.render(D.FreshFor(x, c).value);
            D.Positive(x.duration, written) && x.duration(Trim(written)) == D.FreshFor(x, c)
  {
    TimedIsTrimmed(x, c.interval);
    TimedIsTrimmed(x, c.timeout);
    var f := D.FreshFor(x, c).value;
    assert 0 < f <= D.MAX_DURATION;
  }

  /** One unit, as the machine that hosts the service states it. */
  ghost predicate States(x: D.Syntax, m: Machine, s: D.Service, u: D.SiteService) {
    && D.SiteServiceOk(x.duration, u)
    && D.UnitOf(u) == D.UnitName(Trim(m.name), s.name) && u.role == s.role
    && D.PolicyOf(u) == D.Policy(Trim(m.profile), Observers(m))
    && D.FreshFor(x, s.check).Some? && x.duration(Trim(u.freshFor)) == D.FreshFor(x, s.check)
  }

  lemma UnitIsStated(x: D.Syntax, w: D.Writer, m: Machine, s: D.Service, u: D.SiteService)
    requires D.Sane(x) && D.RoundTrips(x, w) && !Blank(m.name) && !Blank(m.profile) && D.ServiceOk(x, x.duration, s)
    requires ListingOf(x, w)(m, s) == Some(u)
    ensures States(x, m, s, u)
  {
    TrimmedStays(m.name);
    TrimmedStays(m.profile);
    FreshnessReadsBack(x, w, s.check);
  }

  /** entries states each service of the machine in turn. */
  ghost predicate StatesAll(x: D.Syntax, m: Machine, entries: seq<D.SiteService>) {
    && |entries| == |m.services|
    && forall j :: 0 <= j < |entries| ==> States(x, m, m.services[j], entries[j])
  }

  lemma OwnIsStated(x: D.Syntax, w: D.Writer, m: Machine)
    requires D.Sane(x) && D.RoundTrips(x, w) && Hosting(x, m) && OwnOf(x, w)(m).Some?
    ensures StatesAll(x, m, OwnOf(x, w)(m).value)
  {
    var listing, entries := ListingOf(x, w), OwnOf(x, w)(m).value;
    EntriesAreListed(listing, m, |m.services|);
    forall j | 0 <= j < |entries|
      ensures States(x, m, m.services[j], entries[j])
    {
      assert listing(m, m.services[j]) == Some(entries[j]);
      UnitIsStated(x, w, m, m.services[j], entries[j]);
    }
  }

  /** The inventory holds machine j's own units, after those of the machines before it. */
  lemma {:induction false} InventorySplits(own: Own, machines: seq<Machine>, j: nat)
    requires j < |machines| && Inventory(own, machines).Some?
    ensures Inventory(own, machines[..j]).Some? && own(machines[j]).Some?
    ensures Inventory(own, machines[..j]).value + own(machines[j]).value <= Inventory(own, machines).value
    decreases |machines|
  {
    var n := |machines| - 1;
    if j < n {
      assert machines[..n][..j] == machines[..j];
      InventorySplits(own, machines[..n], j);
    }
  }

  lemma {:induction false} UnitHasAMachine(own: Own, machines: seq<Machine>, u: D.SiteService) returns (i: nat)
    requires Inventory(own, machines).Some? && u in Inventory(own, machines).value
    ensures i < |machines| && own(machines[i]).Some? && u in own(machines[i]).value
  {
    var n := |machines| - 1;
    if u in own(machines[n]).value {
      i := n;
    } else {
      i := UnitHasAMachine(own, machines[..n], u);
    }
  }

  lemma OwnUnitIsListed(own: Own, machines: seq<Machine>, i: nat, u: D.SiteService)
    requires i < |machines| && Inventory(own, machines).Some?
    requires own(machines[i]).Some? && u in own(machines[i]).value
    ensures u in Inventory(own, machines).value
  {
    InventorySplits(own, machines, i);
  }

  // ----- names that trim apart suffice

  /** No two names of the site trim to one. */
  ghost predicate TrimsApart(machines: seq<Machine>) {
    forall i, j :: 0 <= i < j < |machines| ==> Trim(machines[i].name) != Trim(machines[j].name)
  }

  /** The machines' listings are there and state their services. */
  ghost predicate Stated(x: D.Syntax, own: Own, machines: seq<Machine>) {
    && Inventory(own, machines).Some?
    && forall i :: 0 <= i < |machines| ==>
         && Hosting(x, machines[i]) && own(machines[i]).Some? && StatesAll(x, machines[i], own(machines[i]).value)
  }

  lemma SiteIsStated(x: D.Syntax, w: D.Writer, machines: seq<Machine>)
    requires D.Sane(x) && D.RoundTrips(x, w) && AllHosting(x, machines) && Inventory(OwnOf(x, w), machines).Some?
    ensures Stated(x, OwnOf(x, w), machines)
  {
    var own := OwnOf(x, w);
    forall i | 0 <= i < |machines|
      ensures own(machines[i]).Some? && StatesAll(x, machines[i], own(machines[i]).value)
    {
      InventorySplits(own, machines, i);
      OwnIsStated(x, w, machines[i]);
    }
  }

  lemma OwnUnitsDiffer(x: D.Syntax, m: Machine, entries: seq<D.SiteService>)
    requires D.HostedOk(x, x.duration, m.services) && StatesAll(x, m, entries)
    ensures Distinct(entries, D.UnitOf)
  {
    forall i, j | 0 <= i < j < |entries|
      ensures D.UnitOf(entries[i]) != D.UnitOf(entries[j])
    {
      assert D.NameOf(m.services[i]) != D.NameOf(m.services[j]);
      assert States(x, m, m.services[i], entries[i]) && States(x, m, m.services[j], entries[j]);
    }
  }

  lemma DistinctConcat<U, K>(a: seq<U>, b: seq<U>, key: U -> K)
    requires Distinct(a, key) && Distinct(b, key) && forall u, v :: u in a && v in b ==> key(u) != key(v)
    ensures Distinct(a + b, key)
  {
    forall i, j | 0 <= i < j < |a + b|
      ensures key((a + b)[i]) != key((a + b)[j])
    {
      if i < |a| <= j {
        assert a[i] in a && b[j - |a|] in b;
      }
    }
  }

  /** What a unit of the inventory says of its machine. */
  lemma UnitIsOf(x: D.Syntax, own: Own, machines: seq<Machine>, u: D.SiteService) returns (i: nat, j: nat)
    requires Stated(x, own, machines) && u in Inventory(own, machines).value
    ensures i < |machines| && j < |machines[i].services| && States(x, machines[i], machines[i].services[j], u)
  {
    i := UnitHasAMachine(own, machines, u);
    j :| 0 <= j < |own(machines[i]).value| && own(machines[i]).value[j] == u;
  }

  lemma StatedBefore(x: D.Syntax, own: Own, machines: seq<Machine>)
    requires machines != [] && Stated(x, own, machines)
    ensures Stated(x, own, machines[..|machines| - 1])
  {
  }

  lemma {:induction false} UnitsDiffer(x: D.Syntax, own: Own, machines: seq<Machine>)
    requires Stated(x, own, machines) && TrimsApart(machines)
    ensures Distinct(Inventory(own, machines).value, D.UnitOf)
  {
    if machines != [] {
      var n := |machines| - 1;
      var before, last := Inventory(own, machines[..n]).value, own(machines[n]).value;
      StatedBefore(x, own, machines);
      UnitsDiffer(x, own, machines[..n]);
      OwnUnitsDiffer(x, machines[n], last);
      forall u, v | u in before && v in last
        ensures D.UnitOf(u) != D.UnitOf(v)
      {
        var i, j := UnitIsOf(x, own, machines[..n], u);
        var k :| 0 <= k < |last| && last[k] == v;
        assert States(x, machines[n], machines[n].services[k], v);
      }
      DistinctConcat(before, last, D.UnitOf);
    }
  }

  lemma UnitsAgree(x: D.Syntax, own: Own, machines: seq<Machine>, u: D.SiteService, v: D.SiteService)
    requires Stated(x, own, machines) && TrimsApart(machines)
    requires u in Inventory(own, machines).value && v in Inventory(own, machines).value && u.machine == v.machine
    ensures D.PolicyOf(u) == D.PolicyOf(v)
  {
    var i, j := UnitIsOf(x, own, machines, u);
    var k, l := UnitIsOf(x, own, machines, v);
    SameTrim(machines, i, k);
  }

  lemma UnitPasses(x: D.Syntax, own: Own, machines: seq<Machine>, i: nat)
    requires Stated(x, own, machines) && i < |Inventory(own, machines).value|
    ensures D.EntryOk(x.duration)(Inventory(own, machines).value[i])
  {
    var k, l := UnitIsOf(x, own, machines, Inventory(own, machines).value[i]);
  }

  lemma SomeUnit(x: D.Syntax, own: Own, machines: seq<Machine>)
    requires Stated(x, own, machines) && machines != []
    ensures Inventory(own, machines).value != []
  {
    InventorySplits(own, machines, 0);
    assert StatesAll(x, machines[0], own(machines[0]).value);
    assert Hosting(x, machines[0]);
  }

  lemma InventoryPasses(x: D.Syntax, own: Own, machines: seq<Machine>)
    requires Stated(x, own, machines) && TrimsApart(machines) && machines != []
    ensures D.InventoryOk(D.EntryOk(x.duration), Inventory(own, machines).value)
  {
    var units := Inventory(own, machines).value;
    SomeUnit(x, own, machines);
    UnitsDiffer(x, own, machines);
    forall u, v | u in units && v in units && u.machine == v.machine {
      UnitsAgree(x, own, machines, u, v);
    }
    forall i | 0 <= i < |units| {
      UnitPasses(x, own, machines, i);
    }
  }

  lemma SameTrim(machines: seq<Machine>, i: nat, k: nat)
    requires TrimsApart(machines) && i < |machines| && k < |machines|
             && Trim(machines[i].name) == Trim(machines[k].name)
    ensures i == k
  {
  }

  /** A record of machine i: what its halves are made of. */
  ghost predicate RecordsMachine(own: Own, machines: seq<Machine>, i: nat, d: D.Deployable)
    requires i < |machines| && Inventory(own, machines).Some?
  {
    && d.machine == machines[i].name && d.profile == machines[i].profile && d.services == machines[i].services
    && d.siteServices == Inventory(own, machines).value && D.Expected(d) == Observers(machines[i])
  }

  lemma OwnUnitIsHosted(x: D.Syntax, own: Own, machines: seq<Machine>, i: nat, d: D.Deployable, u: D.SiteService)
    requires Stated(x, own, machines) && TrimsApart(machines) && i < |machines| && RecordsMachine(own, machines, i, d)
    requires u in d.siteServices && u.machine == Trim(d.machine)
    ensures D.Hosts(d.services, u.service)
  {
    var k, l := UnitIsOf(x, own, machines, u);
    SameTrim(machines, i, k);
    assert machines[i].services[l] in d.services;
  }

  lemma StatedMatches(x: D.Syntax, m: Machine, s: D.Service, u: D.SiteService, d: D.Deployable)
    requires States(x, m, s, u) && d.machine == m.name && d.profile == m.profile && D.Expected(d) == Observers(m)
    ensures D.Matches(x, d, s, u) && D.UnitOf(u) == D.UnitName(Trim(d.machine), s.name)
  {
  }

  lemma ServiceIsListed(x: D.Syntax, own: Own, machines: seq<Machine>, i: nat, d: D.Deployable, l: nat)
    requires Stated(x, own, machines) && i < |machines| && RecordsMachine(own, machines, i, d) && l < |d.services|
    ensures D.Lists(x, d, d.services[l])
  {
    var entries := own(machines[i]).value;
    var u := entries[l];
    assert States(x, machines[i], machines[i].services[l], u);
    StatedMatches(x, machines[i], d.services[l], u, d);
    assert u in entries;
    OwnUnitIsListed(own, machines, i, u);
  }

  lemma HalvesPass(x: D.Syntax, own: Own, machines: seq<Machine>, i: nat, d: D.Deployable)
    requires Stated(x, own, machines) && TrimsApart(machines) && i < |machines| && RecordsMachine(own, machines, i, d)
    ensures D.HalvesAgree(x, d)
  {
    forall u | u in d.siteServices && u.machine == Trim(d.machine) {
      OwnUnitIsHosted(x, own, machines, i, d, u);
    }
    forall s | s in d.services
      ensures D.Lists(x, d, s)
    {
      var l :| 0 <= l < |d.services| && d.services[l] == s;
      ServiceIsListed(x, own, machines, i, d, l);
    }
  }

  // ----- and are needed

  lemma HostedHasUnit(x: D.Syntax, m: Machine, entries: seq<D.SiteService>, service: string) returns (l: nat)
    requires StatesAll(x, m, entries) && D.Hosts(m.services, service)
    ensures l < |entries| && D.UnitOf(entries[l]) == D.UnitName(Trim(m.name), service)
  {
    var s :| s in m.services && s.name == service;
    l :| 0 <= l < |m.services| && m.services[l] == s;
    assert States(x, m, m.services[l], entries[l]);
  }

  lemma FirstUnit(x: D.Syntax, own: Own, machines: seq<Machine>, j: nat) returns (u: D.SiteService)
    requires Stated(x, own, machines) && j < |machines|
    ensures own(machines[j]).value != [] && u == own(machines[j]).value[0] && u in Inventory(own, machines).value
    ensures u.machine == Trim(machines[j].name)
  {
    u := own(machines[j]).value[0];
    assert States(x, machines[j], machines[j].services[0], u);
    OwnUnitIsListed(own, machines, j, u);
  }

  lemma FirstUnitIsHosted(x: D.Syntax, own: Own, machines: seq<Machine>, i: nat, j: nat, d: D.Deployable)
    returns (l: nat)
    requires Stated(x, own, machines) && i < |machines| && j < |machines| && RecordsMachine(own, machines, i, d)
    requires Trim(machines[i].name) == Trim(machines[j].name) && D.HalvesAgree(x, d)
    ensures own(machines[j]).value != [] && l < |own(machines[i]).value|
    ensures D.UnitOf(own(machines[i]).value[l]) == D.UnitOf(own(machines[j]).value[0])
  {
    var u := FirstUnit(x, own, machines, j);
    assert u.machine == Trim(d.machine);
    l := HostedHasUnit(x, machines[i], own(machines[i]).value, u.service);
  }

  lemma UnitTwice(own: Own, machines: seq<Machine>, i: nat, j: nat, l: nat)
    requires Inventory(own, machines).Some? && i < j < |machines| && own(machines[i]).Some? && own(machines[j]).Some?
    requires l < |own(machines[i]).value| && own(machines[j]).value != []
    requires D.UnitOf(own(machines[i]).value[l]) == D.UnitOf(own(machines[j]).value[0])
    ensures !Distinct(Inventory(own, machines).value, D.UnitOf)
  {
    InventorySplits(own, machines, j);
    var before, all := Inventory(own, machines[..j]).value, Inventory(own, machines).value;
    var u := own(machines[i]).value[l];
    OwnUnitIsListed(own, machines[..j], i, u);
    var a :| 0 <= a < |before| && before[a] == u;
    assert all[a] == u && all[|before|] == own(machines[j]).value[0];
  }

  /** Two machines whose names trim to one: the record of the first does not pass. */
  lemma CollisionIsRefused(x: D.Syntax, own: Own, machines: seq<Machine>, i: nat, j: nat, d: D.Deployable)
    requires Stated(x, own, machines) && i < j < |machines| && RecordsMachine(own, machines, i, d)
    requires Trim(machines[i].name) == Trim(machines[j].name)
    ensures !(Distinct(d.siteServices, D.UnitOf) && D.HalvesAgree(x, d))
  {
    if D.HalvesAgree(x, d) {
      var l := FirstUnitIsHosted(x, own, machines, i, j, d);
      UnitTwice(own, machines, i, j, l);
    }
  }

  // ----- the whole record

  lemma EndpointsStand(x: D.Syntax, w: D.Writer, p: Project, k: nat, m: Machine, d: D.Deployable)
    requires D.Sane(x) && D.RoundTrips(x, w) && ProjectOk(x, p) && k < |p.sites| && m in p.sites[k].machines
    requires x.ip(m.ip) && BlocksOk(x, m) && FilesOk(x, m) && PortsApart(m) && d.ip == m.ip && d.services == m.services
    requires EndpointsOf(m, false).Some? && d.primary == InstanceOf(w, p.sites[k], m, false).value
    requires d.standby == InstanceOf(w, p.sites[k], m, true)
    ensures B.EndpointsOk(x, d)
  {
    var s := p.sites[k];
    assert SiteOk(s);
    PartsPass(x, w, s, m, false);
    RoutesPass(x, w, p, k, m, false);
    if EndpointsOf(m, true).Some? {
      PartsPass(x, w, s, m, true);
      RoutesPass(x, w, p, k, m, true);
    }
    PortsPass(x, w, m, d);
  }

  /** Everything but the platform's name, the lease file and the inventory follows from the blueprint. */
  lemma RecordPassesExactlyWhen(x: D.Syntax, w: D.Writer, platform: string, p: Project, k: nat, m: Machine,
                                inventory: seq<D.SiteService>)
    requires D.Sane(x) && D.RoundTrips(x, w) && ProjectOk(x, p) && k < |p.sites| && m in p.sites[k].machines
    ensures var d := RecordOf(w, platform, p, p.sites[k], m, inventory);
            B.Accepts(x, d) <==>
              && !Blank(platform) && LeaseFileApart(x, m)
              && D.InventoryOk(D.EntryOk(x.duration), inventory) && D.HalvesAgree(x, d)
  {
    var s := p.sites[k];
    var d := RecordOf(w, platform, p, s, m, inventory);
    SiteMachinesOk(x, p, k);
    MachineOfSite(x, s.machines, m);
    assert SiteOk(s);
    LeasePasses(x, m);
    IdentityPassesExactlyWhen(x, w, platform, p, s, m, inventory);
    ServicesUnchanged(x, m.services);
    IdentitiesPass(x, w, platform, p, s, m, inventory);
    EndpointsStand(x, w, p, k, m, d);
    InstanceOwns(w, s, m, false);
    if EndpointsOf(m, true).Some? {
      InstanceOwns(w, s, m, true);
    }
    FilesAreListed(m, d);
    FilesPassExactlyWhen(x, m, B.Files(d));
  }

  // ----- the whole plan

  /** What the blueprint's validation leaves open about a site. */
  ghost predicate Plannable(x: D.Syntax, platform: string, machines: seq<Machine>) {
    && (machines != [] ==> !Blank(platform)) && TrimsApart(machines)
    && forall i :: 0 <= i < |machines| ==> LeaseFileApart(x, machines[i])
  }

  lemma ValidMachinesHost(x: D.Syntax, machines: seq<Machine>)
    requires MachinesOk(x, machines)
    ensures AllHosting(x, machines)
  {
    forall i | 0 <= i < |machines|
      ensures Hosting(x, machines[i])
    {
      MachineOfSite(x, machines, machines[i]);
    }
  }

  lemma RecordIsOf(x: D.Syntax, w: D.Writer, platform: string, p: Project, s: Site, i: nat, own: Own)
    requires D.Sane(x) && i < |s.machines| && Hosting(x, s.machines[i]) && Inventory(own, s.machines).Some?
    ensures RecordsMachine(own, s.machines, i,
                           RecordOf(w, platform, p, s, s.machines[i], Inventory(own, s.machines).value))
  {
    ServicesUnchanged(x, s.machines[i].services);
  }

  lemma SitePasses(x: D.Syntax, w: D.Writer, platform: string, p: Project, k: nat, i: nat)
    requires D.Sane(x) && D.RoundTrips(x, w) && ProjectOk(x, p) && k < |p.sites| && i < |p.sites[k].machines|
    requires Stated(x, OwnOf(x, w), p.sites[k].machines) && Plannable(x, platform, p.sites[k].machines)
    ensures Passes(OwnOf(x, w), MakingOf(w, platform, p), AcceptanceOf(x), p.sites[k], p.sites[k].machines[i])
  {
    var s, own := p.sites[k], OwnOf(x, w);
    var inventory := Inventory(own, s.machines).value;
    var d := RecordOf(w, platform, p, s, s.machines[i], inventory);
    RecordIsOf(x, w, platform, p, s, i, own);
    InventoryPasses(x, own, s.machines);
    HalvesPass(x, own, s.machines, i, d);
    RecordPassesExactlyWhen(x, w, platform, p, k, s.machines[i], inventory);
  }

  /** Nothing is left open about machine i, and its name trims apart from the later ones. */
  ghost predicate Closed(x: D.Syntax, platform: string, machines: seq<Machine>, i: nat)
    requires i < |machines|
  {
    && !Blank(platform) && LeaseFileApart(x, machines[i])
    && forall j :: i < j < |machines| ==> Trim(machines[i].name) != Trim(machines[j].name)
  }

  lemma PassingLeavesNothingOpen(x: D.Syntax, w: D.Writer, platform: string, p: Project, k: nat, i: nat)
    requires D.Sane(x) && D.RoundTrips(x, w) && ProjectOk(x, p) && k < |p.sites| && i < |p.sites[k].machines|
    requires Stated(x, OwnOf(x, w), p.sites[k].machines)
    requires Passes(OwnOf(x, w), MakingOf(w, platform, p), AcceptanceOf(x), p.sites[k], p.sites[k].machines[i])
    ensures Closed(x, platform, p.sites[k].machines, i)
  {
    var s, own := p.sites[k], OwnOf(x, w);
    var inventory := Inventory(own, s.machines).value;
    var d := RecordOf(w, platform, p, s, s.machines[i], inventory);
    RecordIsOf(x, w, platform, p, s, i, own);
    RecordPassesExactlyWhen(x, w, platform, p, k, s.machines[i], inventory);
    forall j | i < j < |s.machines|
      ensures Trim(s.machines[i].name) != Trim(s.machines[j].name)
    {
      if Trim(s.machines[i].name) == Trim(s.machines[j].name) {
        CollisionIsRefused(x, own, s.machines, i, j, d);
      }
    }
  }

  lemma AllClosed(x: D.Syntax, platform: string, machines: seq<Machine>)
    ensures Plannable(x, platform, machines) <==> forall i :: 0 <= i < |machines| ==> Closed(x, platform, machines, i)
  {
    if forall i :: 0 <= i < |machines| ==> Closed(x, platform, machines, i) {
      forall i | 0 <= i < |machines|
        ensures LeaseFileApart(x, machines[i])
        ensures forall j :: i < j < |machines| ==> Trim(machines[i].name) != Trim(machines[j].name)
      {
        assert Closed(x, platform, machines, i);
      }
      assert machines != [] ==> Closed(x, platform, machines, 0);
    }
  }

  lemma PlannedOneByOne(own: Own, make: Making, accept: D.Deployable -> bool, s: Site)
    ensures Planned(own, make, accept, s)
            <==> Derives(own, s) && forall i :: 0 <= i < |s.machines| ==> Passes(own, make, accept, s, s.machines[i])
  {
    assert forall i :: 0 <= i < |s.machines| ==> s.machines[i] in s.machines;
  }

  lemma ClosedWherePassing(x: D.Syntax, w: D.Writer, platform: string, p: Project, k: nat)
    requires D.Sane(x) && D.RoundTrips(x, w) && ProjectOk(x, p) && k < |p.sites|
    requires Stated(x, OwnOf(x, w), p.sites[k].machines)
    ensures forall i :: 0 <= i < |p.sites[k].machines|
                        && Passes(OwnOf(x, w), MakingOf(w, platform, p), AcceptanceOf(x), p.sites[k],
                                  p.sites[k].machines[i])
                        ==> Closed(x, platform, p.sites[k].machines, i)
  {
    var s := p.sites[k];
    forall i | 0 <= i < |s.machines| && Passes(OwnOf(x, w), MakingOf(w, platform, p), AcceptanceOf(x), s, s.machines[i])
      ensures Closed(x, platform, s.machines, i)
    {
      PassingLeavesNothingOpen(x, w, platform, p, k, i);
    }
  }

  lemma PassingWhereClosed(x: D.Syntax, w: D.Writer, platform: string, p: Project, k: nat)
    requires D.Sane(x) && D.RoundTrips(x, w) && ProjectOk(x, p) && k < |p.sites|
    requires Stated(x, OwnOf(x, w), p.sites[k].machines) && Plannable(x, platform, p.sites[k].machines)
    ensures forall i :: 0 <= i < |p.sites[k].machines| ==>
                          Passes(OwnOf(x, w), MakingOf(w, platform, p), AcceptanceOf(x), p.sites[k],
                                 p.sites[k].machines[i])
  {
    forall i | 0 <= i < |p.sites[k].machines| {
      SitePasses(x, w, platform, p, k, i);
    }
  }

  lemma SiteIsPlannedExactlyWhen(x: D.Syntax, w: D.Writer, platform: string, p: Project, k: nat)
    requires D.Sane(x) && D.RoundTrips(x, w) && ProjectOk(x, p) && k < |p.sites|
    ensures Planned(OwnOf(x, w), MakingOf(w, platform, p), AcceptanceOf(x), p.sites[k])
            <==> Derives(OwnOf(x, w), p.sites[k]) && Plannable(x, platform, p.sites[k].machines)
  {
    var s, own, make, accept := p.sites[k], OwnOf(x, w), MakingOf(w, platform, p), AcceptanceOf(x);
    PlannedOneByOne(own, make, accept, s);
    AllClosed(x, platform, s.machines);
    if Derives(own, s) {
      SiteMachinesOk(x, p, k);
      ValidMachinesHost(x, s.machines);
      SiteIsStated(x, w, s.machines);
      ClosedWherePassing(x, w, platform, p, k);
      if Plannable(x, platform, s.machines) {
        PassingWhereClosed(x, w, platform, p, k);
      }
    }
  }

  // ----- when an inventory derives

  /** Two intervals and a timeout fit a 64-bit duration. */
  predicate FreshnessFits(x: D.Syntax, c: D.Check)
    requires x.duration(c.interval).Some? && x.duration(c.timeout).Some?
  {
    2 * x.duration(c.interval).value + x.duration(c.timeout).value <= D.MAX_DURATION
  }

  ghost predicate Fits(x: D.Syntax, m: Machine)
    requires D.HostedOk(x, x.duration, m.services)
  {
    forall j :: 0 <= j < |m.services| ==>
      var c := m.services[j].check;
      D.ServiceOk(x, x.duration, m.services[j]) && FreshnessFits(x, c)
  }

  lemma {:induction false} EntriesExist(listing: Listing, m: Machine, n: nat)
    requires n <= |m.services|
    ensures EntriesOf(listing, m, n).Some? <==> forall j :: 0 <= j < n ==> listing(m, m.services[j]).Some?
  {
    if n > 0 {
      EntriesExist(listing, m, n - 1);
    }
  }

  lemma {:induction false} InventoryExists(own: Own, machines: seq<Machine>)
    ensures Inventory(own, machines).Some? <==> forall i :: 0 <= i < |machines| ==> own(machines[i]).Some?
  {
    if machines != [] {
      InventoryExists(own, machines[..|machines| - 1]);
    }
  }

  lemma ListedExactlyWhen(x: D.Syntax, w: D.Writer, m: Machine, s: D.Service)
    requires D.Sane(x) && D.ServiceOk(x, x.duration, s)
    ensures ListingOf(x, w)(m, s).Some? <==> FreshnessFits(x, s.check)
  {
    TimedIsTrimmed(x, s.check.interval);
    TimedIsTrimmed(x, s.check.timeout);
    D.OverflowGuardIsExact(x, s.check, x.duration(s.check.interval).value, x.duration(s.check.timeout).value);
  }

  lemma OwnDerivesExactlyWhen(x: D.Syntax, w: D.Writer, m: Machine)
    requires D.Sane(x) && Hosting(x, m)
    ensures OwnOf(x, w)(m).Some? <==> Fits(x, m)
  {
    EntriesExist(ListingOf(x, w), m, |m.services|);
    forall j | 0 <= j < |m.services|
      ensures D.ServiceOk(x, x.duration, m.services[j])
      ensures ListingOf(x, w)(m, m.services[j]).Some? <==> FreshnessFits(x, m.services[j].check)
    {
      ListedExactlyWhen(x, w, m, m.services[j]);
    }
  }

  ghost predicate AllFit(x: D.Syntax, machines: seq<Machine>)
    requires AllHosting(x, machines)
  {
    forall i :: 0 <= i < |machines| ==> Hosting(x, machines[i]) && Fits(x, machines[i])
  }

  /** A site's inventory derives exactly if every freshness fits. */
  lemma DerivesExactlyWhen(x: D.Syntax, w: D.Writer, s: Site)
    requires D.Sane(x) && AllHosting(x, s.machines)
    ensures Derives(OwnOf(x, w), s) <==> AllFit(x, s.machines)
  {
    InventoryExists(OwnOf(x, w), s.machines);
    forall i | 0 <= i < |s.machines|
      ensures Hosting(x, s.machines[i]) && (OwnOf(x, w)(s.machines[i]).Some? <==> Fits(x, s.machines[i]))
    {
      OwnDerivesExactlyWhen(x, w, s.machines[i]);
    }
  }

  /**
   A valid project has a plan exactly when every freshness fits a duration, the platform is
   named if any machine is planned, no two machines of one site have names that trim to
   one, and no deployed standby's lease file is a file of its machine's instances.
   */
  lemma PlanExistsExactlyWhen(x: D.Syntax, w: D.Writer, platform: string, p: Project)
    requires D.Sane(x) && D.RoundTrips(x, w) && ProjectOk(x, p)
    ensures AllPlanned(OwnOf(x, w), MakingOf(w, platform, p), AcceptanceOf(x), p.sites)
            <==> forall k :: 0 <= k < |p.sites| ==>
                   && AllHosting(x, p.sites[k].machines) && AllFit(x, p.sites[k].machines)
                   && Plannable(x, platform, p.sites[k].machines)
  {
    forall k | 0 <= k < |p.sites|
      ensures AllHosting(x, p.sites[k].machines)
      ensures Planned(OwnOf(x, w), MakingOf(w, platform, p), AcceptanceOf(x), p.sites[k])
              <==> AllFit(x, p.sites[k].machines) && Plannable(x, platform, p.sites[k].machines)
    {
      SiteMachinesOk(x, p, k);
      ValidMachinesHost(x, p.sites[k].machines);
      DerivesExactlyWhen(x, w, p.sites[k]);
      SiteIsPlannedExactlyWhen(x, w, platform, p, k);
    }
  }

  // ----- each condition can fail

  function Slowest(w: D.Writer, s: D.Service): D.Service {
    s.(check := s.check.(interval := w.render(D.MAX_DURATION), timeout := w.render(D.MAX_DURATION - 1)))
  }

  function Slowed(w: D.Writer, m: Machine): Machine
    requires m.services != []
  {
    m.(services := m.services[0 := Slowest(w, m.services[0])])
  }

  lemma SlowestIsOk(x: D.Syntax, w: D.Writer, s: D.Service)
    requires D.Sane(x) && D.RoundTrips(x, w) && D.ServiceOk(x, x.duration, s)
    ensures D.ServiceOk(x, x.duration, Slowest(w, s)) && !FreshnessFits(x, Slowest(w, s).check)
  {
    var slow := Slowest(w, s).check;
    assert x.duration(slow.interval) == Some(D.MAX_DURATION) && x.duration(slow.timeout) == Some(D.MAX_DURATION - 1);
    assert slow.interval == Trim(slow.interval) && slow.timeout == Trim(slow.timeout);
  }

  lemma SlowedServices(x: D.Syntax, w: D.Writer, services: seq<D.Service>)
    requires D.Sane(x) && D.RoundTrips(x, w) && D.HostedOk(x, x.duration, services)
    ensures D.HostedOk(x, x.duration, services[0 := Slowest(w, services[0])])
  {
    var slow := Slowest(w, services[0]);
    SlowestIsOk(x, w, services[0]);
    AllValidReplaced(services, (s: D.Service) => D.ServiceOk(x, x.duration, s), 0, slow);
    DistinctReplaced(services, D.NameOf, 0, slow);
  }

  lemma SlowedPortsApart(w: D.Writer, m: Machine)
    requires PortsApart(m) && m.services != []
    ensures PortsApart(Slowed(w, m))
  {
    assert ListenerPorts(Slowed(w, m)) == ListenerPorts(m);
    AllValidReplaced(m.services, (s: D.Service) => s.check.port !in ListenerPorts(m), 0, Slowest(w, m.services[0]));
    DistinctReplaced(m.services, D.ProbeOf, 0, Slowest(w, m.services[0]));
  }

  /** Every valid machine stays valid with a service so slow that no duration holds its reports' freshness. */
  lemma SlowestServiceIsValid(x: D.Syntax, w: D.Writer, m: Machine)
    requires D.Sane(x) && D.RoundTrips(x, w) && MachineOk(x, m)
    ensures MachineOk(x, Slowed(w, m)) && !Fits(x, Slowed(w, m))
  {
    var n := Slowed(w, m);
    SlowedServices(x, w, m.services);
    SlowedPortsApart(w, m);
    SlowestIsOk(x, w, m.services[0]);
    assert OwnFiles(n) == OwnFiles(m) && LeaseOf(n) == LeaseOf(m);
    assert n.services[0] == Slowest(w, m.services[0]);
  }

  function OnItsLog(m: Machine): Machine
    requires LeaseOf(m).Some?
  {
    m.(standby := Some(m.standby.value.(lease := Some(LeaseOf(m).value.(file := FilesOf(m, false).log)))))
  }

  lemma SameBlocks(x: D.Syntax, m: Machine)
    requires LeaseOf(m).Some?
    ensures var n := OnItsLog(m);
            && OwnFiles(n) == OwnFiles(m) && ListenerPorts(n) == ListenerPorts(m) && LeaseOf(n).Some?
            && LeaseOf(n).value == LeaseOf(m).value.(file := FilesOf(m, false).log)
            && (BlocksOk(x, m) ==> BlocksOk(x, n)) && (PortsApart(m) ==> PortsApart(n))
            && (FilesOk(x, m) ==> FilesOk(x, n))
  {
  }

  /** Every valid machine with a lease stays valid with the lease file moved onto its log. */
  lemma LeaseOnALogIsValid(x: D.Syntax, m: Machine)
    requires MachineOk(x, m) && LeaseOf(m).Some?
    ensures MachineOk(x, OnItsLog(m)) && !LeaseFileApart(x, OnItsLog(m))
  {
    var n := OnItsLog(m);
    SameBlocks(x, m);
    LogIsAFile(x, m);
    assert FilesOk(x, n) && StoreOk(x, n) && LeaseOk(x, n.standby.value) && IdentityOk(x, n) && WinServicesOk(n);
  }

  lemma LogIsAFile(x: D.Syntax, m: Machine)
    requires FilesOk(x, m) && m.primary.Some?
    ensures D.NameOk(FilesOf(m, false).log) && FilesOf(m, false).log in OwnFiles(m)
  {
    FilesNamed(x, m, false);
    TrimmedStays(m.primary.value.files.log);
    assert OwnFiles(m)[2] == FilesOf(m, false).log;
  }

  lemma TabTrims(name: string)
    ensures Trim("\t" + name) == Trim(name) && Blank("\t" + name) == Blank(name)
  {
    assert ("\t" + name)[1..] == name;
  }

  /** So is the one on names: machines stay valid when one is renamed to another's name after a tab. */
  lemma NamesThatTrimToOneAreValid(x: D.Syntax, machines: seq<Machine>, i: nat, j: nat)
    requires MachinesOk(x, machines) && i < j < |machines|
    requires forall m :: m in machines ==> m.name != "\t" + machines[i].name
    ensures var renamed := machines[j := machines[j].(name := "\t" + machines[i].name)];
            MachinesOk(x, renamed) && !TrimsApart(renamed)
  {
    var name := "\t" + machines[i].name;
    var m := machines[j].(name := name);
    TabTrims(machines[i].name);
    MachineOfSite(x, machines, machines[j]);
    RenamedIsOk(x, machines[j], name);
    AllValidReplaced(machines, OkMachine(x), j, m);
    DistinctReplaced(machines, MachineName, j, m);
    DistinctReplaced(machines, MachineIp, j, m);
    assert Trim(machines[j := m][i].name) == Trim(machines[j := m][j].name);
  }

  lemma AllValidReplaced<U>(items: seq<U>, valid: U -> bool, j: nat, item: U)
    requires AllValid(items, valid) && j < |items| && valid(item)
    ensures AllValid(items[j := item], valid)
  {
  }

  lemma DistinctReplaced<U, K>(items: seq<U>, key: U -> K, j: nat, item: U)
    requires Distinct(items, key) && j < |items|
    requires key(item) == key(items[j]) || forall v :: v in items ==> key(v) != key(item)
    ensures Distinct(items[j := item], key)
  {
    var replaced := items[j := item];
    forall a, b | 0 <= a < b < |replaced|
      ensures key(replaced[a]) != key(replaced[b])
    {
      assert key(items[a]) != key(items[b]) && items[a] in items && items[b] in items;
    }
  }

  lemma RenamedIsOk(x: D.Syntax, m: Machine, name: string)
    requires MachineOk(x, m) && Blank(name) == Blank(m.name)
    ensures OkMachine(x)(m.(name := name))
  {
    var n := m.(name := name);
    assert OwnFiles(n) == OwnFiles(m) && LeaseOf(n) == LeaseOf(m) && ListenerPorts(n) == ListenerPorts(m);
  }

  // ----- what a plan promises

  /** d is the record of machine m of site k. */
  lemma RecordHasAPlace(x: D.Syntax, w: D.Writer, platform: string, p: Project, d: D.Deployable)
    returns (k: nat, m: Machine)
    requires AllPlanned(OwnOf(x, w), MakingOf(w, platform, p), AcceptanceOf(x), p.sites)
             && AllDerive(OwnOf(x, w), p.sites)
    requires d in PlanOf(OwnOf(x, w), MakingOf(w, platform, p), p.sites)
    ensures PlannedAt(OwnOf(x, w), MakingOf(w, platform, p), p.sites, d, k, m) && B.Accepts(x, d)
  {
    var own, make := OwnOf(x, w), MakingOf(w, platform, p);
    PlanIsPlaced(own, make, p.sites, d);
    k, m :| PlannedAt(own, make, p.sites, d, k, m);
    assert Passes(own, make, AcceptanceOf(x), p.sites[k], m);
    assert AcceptanceOf(x)(d);
  }

  /** From the blueprint to a serving process: whatever is planned, the platform decodes and starts. */
  lemma PlannedMachinesStart(x: D.Syntax, w: D.Writer, platform: string, p: Project, d: D.Deployable)
    requires D.Sane(x) && ProjectOk(x, p)
    requires AllPlanned(OwnOf(x, w), MakingOf(w, platform, p), AcceptanceOf(x), p.sites)
             && AllDerive(OwnOf(x, w), p.sites)
    requires d in PlanOf(OwnOf(x, w), MakingOf(w, platform, p), p.sites)
    ensures V.Decodes(x, d) && P.Starts(x, d)
    ensures P.OpenLease(P.LeaseConfigOf(x, d).value) == (if d.standby.Some? then P.Contending else P.AlwaysActive)
  {
    var k, m := RecordHasAPlace(x, w, platform, p, d);
    A.AcceptedMachinesStart(x, d);
  }

  function About(entries: seq<D.SiteService>, machine: string): seq<D.SiteService> {
    if entries == [] then []
    else
      About(entries[..|entries| - 1], machine)
      + (if entries[|entries| - 1].machine == machine then [entries[|entries| - 1]] else [])
  }

  lemma {:induction false} AboutConcat(a: seq<D.SiteService>, b: seq<D.SiteService>, machine: string)
    ensures About(a + b, machine) == About(a, machine) + About(b, machine)
  {
    if b == [] {
      assert a + b == a;
    } else {
      assert (a + b)[..|a + b| - 1] == a + b[..|b| - 1];
      AboutConcat(a, b[..|b| - 1], machine);
    }
  }

  lemma {:induction false} AboutOne(entries: seq<D.SiteService>, name: string, machine: string)
    requires forall e :: e in entries ==> e.machine == name
    ensures About(entries, machine) == if machine == name then entries else []
  {
    if entries != [] {
      assert entries == entries[..|entries| - 1] + [entries[|entries| - 1]];
      AboutOne(entries[..|entries| - 1], name, machine);
    }
  }

  /** names[i] is what machine i is listed under. */
  ghost predicate ListedUnder(own: Own, machines: seq<Machine>, names: seq<string>) {
    && |names| == |machines|
    && forall i :: 0 <= i < |machines| ==>
         own(machines[i]).Some? ==> forall e :: e in own(machines[i]).value ==> e.machine == names[i]
  }

  lemma {:induction false} OthersSayNothing(own: Own, machines: seq<Machine>, names: seq<string>, machine: string)
    requires ListedUnder(own, machines, names) && Inventory(own, machines).Some? && machine !in names
    ensures About(Inventory(own, machines).value, machine) == []
  {
    if machines != [] {
      var n := |machines| - 1;
      OthersSayNothing(own, machines[..n], names[..n], machine);
      AboutOne(own(machines[n]).value, names[n], machine);
      AboutConcat(Inventory(own, machines[..n]).value, own(machines[n]).value, machine);
    }
  }

  lemma {:induction false} InventorySlices(own: Own, machines: seq<Machine>, names: seq<string>, k: nat)
    requires ListedUnder(own, machines, names) && k < |machines| && Inventory(own, machines).Some?
    requires forall i, j :: 0 <= i < j < |names| ==> names[i] != names[j]
    ensures own(machines[k]).Some?
    ensures About(Inventory(own, machines).value, names[k]) == own(machines[k]).value
  {
    var n := |machines| - 1;
    AboutConcat(Inventory(own, machines[..n]).value, own(machines[n]).value, names[k]);
    AboutOne(own(machines[n]).value, names[n], names[k]);
    if k == n {
      OthersSayNothing(own, machines[..n], names[..n], names[k]);
    } else {
      InventorySlices(own, machines[..n], names[..n], k);
    }
  }

  lemma StatedUnderTheirNames(x: D.Syntax, own: Own, machines: seq<Machine>, i: nat, e: D.SiteService)
    requires Stated(x, own, machines) && i < |machines| && e in own(machines[i]).value
    ensures e.machine == Trim(machines[i].name)
  {
    var j :| 0 <= j < |own(machines[i]).value| && own(machines[i]).value[j] == e;
    assert States(x, machines[i], machines[i].services[j], e);
  }

  /**
   In a plan, what every record of a site says about a machine of that site is that
   machine's services: all of them, once each, in authored order, as the machine states them.
   */
  lemma InventoryListsEachMachine(x: D.Syntax, w: D.Writer, platform: string, p: Project, k: nat, i: nat)
    requires D.Sane(x) && D.RoundTrips(x, w) && ProjectOk(x, p) && k < |p.sites| && i < |p.sites[k].machines|
    requires AllPlanned(OwnOf(x, w), MakingOf(w, platform, p), AcceptanceOf(x), p.sites)
    ensures Derives(OwnOf(x, w), p.sites[k])
    ensures StatesAll(x, p.sites[k].machines[i],
                      About(Inventory(OwnOf(x, w), p.sites[k].machines).value, Trim(p.sites[k].machines[i].name)))
  {
    var own, machines := OwnOf(x, w), p.sites[k].machines;
    SiteIsPlannedExactlyWhen(x, w, platform, p, k);
    SiteMachinesOk(x, p, k);
    ValidMachinesHost(x, machines);
    SiteIsStated(x, w, machines);
    var names := seq(|machines|, j requires 0 <= j < |machines| => Trim(machines[j].name));
    forall j, e | 0 <= j < |machines| && own(machines[j]).Some? && e in own(machines[j]).value {
      StatedUnderTheirNames(x, own, machines, j, e);
    }
    InventorySlices(own, machines, names, i);
  }
}
