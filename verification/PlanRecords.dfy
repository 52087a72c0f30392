/** What the records of a plan say, in the words of the blueprint they were resolved from. */
module PlanRecords {
  import opened Options
  import opened Sorting
  import opened Text
  import opened Blueprint
  import opened Mesh
  import opened Resolution
  import opened Plans
  import D = Descriptor

  // ----- the instances of a site

  /** The machine deploys this instance: in this role, dialed at this ip and port. */
  predicate Deploys(m: Machine, standby: bool, ip: string, port: int) {
    var policy := if standby && m.standby.Some? then Some(m.standby.value.policy) else m.primary;
    && (standby ==> m.standby.Some? && !m.standby.value.disabled)
    && policy.Some? && policy.value.api.Some? && policy.value.cluster == Some(port) && ip == m.ip
  }

  lemma NodeIsDeployed(x: D.Syntax, m: Machine, n: Node)
    requires BlocksOk(x, m)
    ensures n in NodesOf(m) <==> n.machine == m.name && Deploys(m, n.standby, n.route.ip, n.route.port)
  {
    assert n in NodesOf(m) <==> n in NodeAt(m, false) || n in NodeAt(m, true);
    assert m.primary.Some? && EndpointsOk(x, m.primary.value);
    assert m.standby.Some? && (m.standby.value.disabled || EndpointsOk(x, m.standby.value.policy));
  }

  /** The nodes of a site are exactly the instances its machines deploy. */
  lemma SiteNodesAreDeployed(x: D.Syntax, p: Project, k: nat, n: Node)
    requires ProjectOk(x, p) && k < |p.sites|
    ensures n in SiteNodes(p, k)
            <==> exists m :: && m in p.sites[k].machines && n.machine == m.name
                             && Deploys(m, n.standby, n.route.ip, n.route.port)
  {
    SiteMachinesOk(x, p, k);
    InNodes(p.sites[k].machines, n);
    forall m | m in p.sites[k].machines
      ensures n in NodesOf(m) <==> n.machine == m.name && Deploys(m, n.standby, n.route.ip, n.route.port)
    {
      MachineOfSite(x, p.sites[k].machines, m);
      NodeIsDeployed(x, m, n);
    }
  }

  // ----- one instance's record

  /** What a record says of an instance, but for its routes. */
  predicate SaysOf(w: D.Writer, s: Site, m: Machine, standby: bool, q: Policy, i: D.Instance) {
    && q.api.Some? && q.cluster.Some? && q.service.Some? && s.cluster.Some?
    && i.service == Some(q.service.value.name)
    && i.eventsFile == Trim(q.files.events) && i.stateFile == Trim(q.files.state) && i.logFile == Trim(q.files.log)
    && i.apiAddress == w.join("127.0.0.1", q.api.value.port)
    && i.readHeaderTimeout == q.api.value.readHeaderTimeout && i.shutdownTimeout == q.api.value.shutdownTimeout
    && i.fabric.serverName == m.name + (if standby then "-standby" else "-primary")
    && i.fabric.clusterName == s.cluster.value
    && i.fabric.clusterAddress == w.join(m.ip, q.cluster.value)
  }

  lemma InstanceSays(x: D.Syntax, w: D.Writer, s: Site, m: Machine, standby: bool, q: Policy)
    requires D.Sane(x) && SiteOk(s) && x.ip(m.ip) && BlocksOk(x, m) && WinServicesOk(m)
    requires PolicyOf(m, standby) == Some(q)
    ensures InstanceOf(w, s, m, standby).Some? && SaysOf(w, s, m, standby, q, InstanceOf(w, s, m, standby).value)
  {
    assert EndpointsOk(x, q);
    TimedIsTrimmed(x, q.api.value.readHeaderTimeout);
    TimedIsTrimmed(x, q.api.value.shutdownTimeout);
  }

  /** The routes are the addresses of the other instances the site deploys, each once and nothing else. */
  ghost predicate RoutesToTheOthers(w: D.Writer, p: Project, k: nat, m: Machine, standby: bool, routes: seq<string>)
    requires k < |p.sites|
  {
    && NoRepeats(routes)
    && (forall n :: n in SiteNodes(p, k) && !(n.machine == m.name && n.standby == standby) ==>
          w.url(n.route.ip, n.route.port) in routes)
    && (forall r :: r in routes ==>
          exists n :: && n in SiteNodes(p, k) && !(n.machine == m.name && n.standby == standby)
                      && r == w.url(n.route.ip, n.route.port))
  }

  lemma UrlsTellRoutes(x: D.Syntax, w: D.Writer, a: Route, b: Route)
    requires D.RoundTrips(x, w) && x.ip(a.ip) && D.PortOk(a.port) && x.ip(b.ip) && D.PortOk(b.port)
    ensures w.url(a.ip, a.port) == w.url(b.ip, b.port) ==> a == b
  {
    assert x.split(w.join(a.ip, a.port)) == Some(D.HostPort(a.ip, a.port));
    assert x.split(w.join(b.ip, b.port)) == Some(D.HostPort(b.ip, b.port));
  }

  lemma WrittenRoutes(x: D.Syntax, w: D.Writer, routes: seq<Route>)
    requires D.RoundTrips(x, w) && NoRepeats(routes) && forall r :: r in routes ==> x.ip(r.ip) && D.PortOk(r.port)
    ensures NoRepeats(Urls(w, routes))
    ensures forall r :: r in routes ==> w.url(r.ip, r.port) in Urls(w, routes)
    ensures forall s :: s in Urls(w, routes) ==> exists r :: r in routes && s == w.url(r.ip, r.port)
  {
    var urls := Urls(w, routes);
    forall i, j | 0 <= i < j < |urls|
      ensures urls[i] != urls[j]
    {
      assert routes[i] in routes && routes[j] in routes;
      UrlsTellRoutes(x, w, routes[i], routes[j]);
    }
    forall r | r in routes
      ensures w.url(r.ip, r.port) in urls
    {
      var i :| 0 <= i < |routes| && routes[i] == r;
      assert urls[i] == w.url(r.ip, r.port);
    }
    forall s | s in urls
      ensures exists r :: r in routes && s == w.url(r.ip, r.port)
    {
      var i :| 0 <= i < |urls| && urls[i] == s;
      assert routes[i] in routes;
    }
  }

  lemma InstanceRoutes(x: D.Syntax, w: D.Writer, p: Project, k: nat, m: Machine, standby: bool)
    requires D.RoundTrips(x, w) && ProjectOk(x, p) && k < |p.sites| && m in p.sites[k].machines
    requires InstanceOf(w, p.sites[k], m, standby).Some?
    ensures RoutesToTheOthers(w, p, k, m, standby, InstanceOf(w, p.sites[k], m, standby).value.fabric.routes)
  {
    var self := Node(m.name, standby, Route(m.ip, EndpointsOf(m, standby).value.cluster));
    var routes := RoutesOf(p, k, self);
    assert self in NodesOf(m);
    InNodes(p.sites[k].machines, self);
    SiteMachinesOk(x, p, k);
    RoutesAreTheOthers(x, p, k, self);
    SiteNodesToldApart(x, p.sites[k].machines);
    forall r | r in routes
      ensures x.ip(r.ip) && D.PortOk(r.port)
      ensures exists n :: n in SiteNodes(p, k) && n.route == r && n != self
    {
      var n :| n in SiteNodes(p, k) && n.route == r;
      NodesAddressed(x, p.sites[k].machines, n);
    }
    WrittenRoutes(x, w, routes);
    RoutesAreOfOthers(x, w, p, k, m, standby, self, routes);
  }

  lemma RoutesAreOfOthers(x: D.Syntax, w: D.Writer, p: Project, k: nat, m: Machine, standby: bool, self: Node,
                          routes: seq<Route>)
    requires k < |p.sites| && ToldApart(SiteNodes(p, k)) && self in SiteNodes(p, k)
    requires self.machine == m.name && self.standby == standby
    requires forall n :: n in SiteNodes(p, k) ==> (n.route in routes <==> n != self)
    requires forall r :: r in routes ==> exists n :: n in SiteNodes(p, k) && n.route == r && n != self
    requires NoRepeats(Urls(w, routes))
    requires forall r :: r in routes ==> w.url(r.ip, r.port) in Urls(w, routes)
    requires forall s :: s in Urls(w, routes) ==> exists r :: r in routes && s == w.url(r.ip, r.port)
    ensures RoutesToTheOthers(w, p, k, m, standby, Urls(w, routes))
  {
    forall n | n in SiteNodes(p, k) && !(n.machine == m.name && n.standby == standby)
      ensures w.url(n.route.ip, n.route.port) in Urls(w, routes)
    {
      assert n.route in routes;
    }
    forall s | s in Urls(w, routes)
      ensures exists n :: && n in SiteNodes(p, k) && !(n.machine == m.name && n.standby == standby)
                          && s == w.url(n.route.ip, n.route.port)
    {
      var r :| r in routes && s == w.url(r.ip, r.port);
      var n :| n in SiteNodes(p, k) && n.route == r && n != self;
    }
  }

  // ----- the records of a plan

  /** d is the record of this machine of site k, as the blueprint authors both. */
  ghost predicate Says(w: D.Writer, platform: string, p: Project, k: nat, m: Machine, d: D.Deployable)
    requires k < |p.sites|
  {
    && d.platform == platform && d.project == p.name && d.environment == p.environment && d.site == p.sites[k].name
    && d.machine == m.name && d.profile == m.profile && d.ip == m.ip
    && d.services == m.services && d.machineEventsFile == m.eventstore
    && m.primary.Some? && SaysOf(w, p.sites[k], m, false, m.primary.value, d.primary)
    && RoutesToTheOthers(w, p, k, m, false, d.primary.fabric.routes)
    && m.standby.Some? && (d.standby.Some? <==> !m.standby.value.disabled)
    && d.lease == (if m.standby.value.disabled then None else m.standby.value.lease)
    && (d.standby.Some? ==>
          && SaysOf(w, p.sites[k], m, true, m.standby.value.policy, d.standby.value)
          && RoutesToTheOthers(w, p, k, m, true, d.standby.value.fabric.routes))
  }

  lemma RecordSays(x: D.Syntax, w: D.Writer, platform: string, p: Project, k: nat, m: Machine,
                   inventory: seq<D.SiteService>)
    requires D.Sane(x) && D.RoundTrips(x, w) && ProjectOk(x, p) && k < |p.sites| && m in p.sites[k].machines
    ensures Says(w, platform, p, k, m, RecordOf(w, platform, p, p.sites[k], m, inventory))
  {
    SiteMachinesOk(x, p, k);
    MachineOfSite(x, p.sites[k].machines, m);
    assert SiteOk(p.sites[k]);
    ServicesUnchanged(x, m.services);
    InstanceSays(x, w, p.sites[k], m, false, m.primary.value);
    InstanceRoutes(x, w, p, k, m, false);
    if !m.standby.value.disabled {
      InstanceSays(x, w, p.sites[k], m, true, m.standby.value.policy);
      InstanceRoutes(x, w, p, k, m, true);
    }
  }

  /**
   Every record of a plan is of one machine of one site, and says of it, of each instance it
   deploys and of that instance's peers what the blueprint says.
   */
  lemma PlannedRecordsSay(x: D.Syntax, w: D.Writer, platform: string, p: Project, d: D.Deployable)
    returns (k: nat, m: Machine)
    requires D.Sane(x) && D.RoundTrips(x, w) && ProjectOk(x, p)
    requires AllDerive(OwnOf(x, w), p.sites) && d in PlanOf(OwnOf(x, w), MakingOf(w, platform, p), p.sites)
    ensures k < |p.sites| && m in p.sites[k].machines && Says(w, platform, p, k, m, d)
  {
    var own, make := OwnOf(x, w), MakingOf(w, platform, p);
    PlanIsPlaced(own, make, p.sites, d);
    k, m :| PlannedAt(own, make, p.sites, d, k, m);
    RecordSays(x, w, platform, p, k, m, Inventory(own, p.sites[k].machines).value);
  }

  lemma {:induction false} SitePlanHasEach(make: Making, s: Site, inventory: seq<D.SiteService>, n: nat, i: nat)
    requires i < n <= |s.machines|
    ensures SitePlan(make, s, inventory, n)[i] == make(s, s.machines[i], inventory)
  {
    if i < n - 1 {
      SitePlanHasEach(make, s, inventory, n - 1, i);
    }
  }

  function CountMachines(sites: seq<Site>): nat {
    if sites == [] then 0 else CountMachines(sites[..|sites| - 1]) + |sites[|sites| - 1].machines|
  }

  /** A plan holds a record for every machine: as many as there are, in authored order. */
  lemma {:induction false} EveryMachineIsPlanned(own: Own, make: Making, sites: seq<Site>, k: nat, i: nat)
    requires AllDerive(own, sites) && k < |sites| && i < |sites[k].machines|
    ensures var at := CountMachines(sites[..k]) + i;
            && at < |PlanOf(own, make, sites)| == CountMachines(sites)
            && Derives(own, sites[k])
            && PlanOf(own, make, sites)[at]
               == make(sites[k], sites[k].machines[i], Inventory(own, sites[k].machines).value)
  {
    var n := |sites| - 1;
    PlanCounts(own, make, sites[..n]);
    PlanCounts(own, make, sites);
    if k < n {
      EveryMachineIsPlanned(own, make, sites[..n], k, i);
      assert sites[..n][..k] == sites[..k];
    } else {
      var last := sites[n];
      assert Derives(own, last);
      SitePlanHasEach(make, last, Inventory(own, last.machines).value, |last.machines|, i);
    }
  }

  lemma {:induction false} PlanCounts(own: Own, make: Making, sites: seq<Site>)
    requires AllDerive(own, sites)
    ensures |PlanOf(own, make, sites)| == CountMachines(sites)
  {
    if sites != [] {
      PlanCounts(own, make, sites[..|sites| - 1]);
    }
  }
}
