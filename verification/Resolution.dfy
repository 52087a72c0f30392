/** The plan a project resolves to: one deployment descriptor per machine, each validated. */
module Resolution {
  import opened Options
  import opened Registry
  import opened Text
  import opened Blueprint
  import opened Mesh
  import D = Descriptor
  import B = BuilderValidation

  // ----- a site's inventory

  function Observers(m: Machine): seq<string> {
    if EndpointsOf(m, true).None? then ["primary"] else ["primary", "standby"]
  }

  type Listing = (Machine, D.Service) -> Option<D.SiteService>

  /** One unit of a machine, None if its policy's freshness does not fit a duration. */
  function ListingOf(x: D.Syntax, w: D.Writer): Listing {
    (m: Machine, s: D.Service) =>
      var freshFor := D.FreshFor(x, s.check);
      if freshFor.None? then None
      else Some(D.SiteService(Trim(m.name), Trim(m.profile), Trim(s.name), s.role, Observers(m),
                              w.render(freshFor.value)))
  }

  /** The first n units of a machine in authored order, None if one cannot be listed. */
  function EntriesOf(listing: Listing, m: Machine, n: nat): Option<seq<D.SiteService>>
    requires n <= |m.services|
  {
    if n == 0 then Some([])
    else
      var before, last := EntriesOf(listing, m, n - 1), listing(m, m.services[n - 1]);
      if before.None? || last.None? then None else Some(before.value + [last.value])
  }

  type Own = Machine -> Option<seq<D.SiteService>>

  function OwnOf(x: D.Syntax, w: D.Writer): Own {
    (m: Machine) => EntriesOf(ListingOf(x, w), m, |m.services|)
  }

  /** A site's inventory: machines as listed, each with its own units. */
  function Inventory(own: Own, machines: seq<Machine>): Option<seq<D.SiteService>> {
    if machines == [] then Some([])
    else
      var before, last := Inventory(own, machines[..|machines| - 1]), own(machines[|machines| - 1]);
      if before.None? || last.None? then None else Some(before.value + last.value)
  }

  lemma {:induction false} ShortEntries(listing: Listing, m: Machine, k: nat, n: nat)
    requires k <= n <= |m.services| && EntriesOf(listing, m, k).None?
    ensures EntriesOf(listing, m, n).None?
  {
    if k < n {
      ShortEntries(listing, m, k, n - 1);
    }
  }

  lemma {:induction false} ShortInventory(own: Own, machines: seq<Machine>, k: nat)
    requires k <= |machines| && Inventory(own, machines[..k]).None?
    ensures Inventory(own, machines).None?
    decreases |machines|
  {
    if k == |machines| {
      assert machines[..k] == machines;
    } else {
      assert machines[..|machines| - 1][..k] == machines[..k];
      ShortInventory(own, machines[..|machines| - 1], k);
    }
  }

  method MachineEntries(x: D.Syntax, w: D.Writer, m: Machine) returns (entries: Option<seq<D.SiteService>>)
    ensures entries == OwnOf(x, w)(m)
  {
    var listing := ListingOf(x, w);
    var made: seq<D.SiteService> := [];
    for i := 0 to |m.services|
      invariant EntriesOf(listing, m, i) == Some(made)
    {
      var entry := listing(m, m.services[i]);
      if entry.None? {
        ShortEntries(listing, m, i + 1, |m.services|);
        return None;
      }
      made := made + [entry.value];
    }
    entries := Some(made);
  }

  method SiteServices(x: D.Syntax, w: D.Writer, machines: seq<Machine>) returns (inventory: Option<seq<D.SiteService>>)
    ensures inventory == Inventory(OwnOf(x, w), machines)
  {
    var made: seq<D.SiteService> := [];
    for i := 0 to |machines|
      invariant Inventory(OwnOf(x, w), machines[..i]) == Some(made)
    {
      assert machines[..i + 1][..i] == machines[..i];
      var own := MachineEntries(x, w, machines[i]);
      if own.None? {
        ShortInventory(OwnOf(x, w), machines, i + 1);
        return None;
      }
      made := made + own.value;
    }
    assert machines[..|machines|] == machines;
    inventory := Some(made);
  }

  // ----- one machine's record

  function ServiceFrom(s: D.Service): D.Service {
    D.Service(Trim(s.name), s.role, s.check.(interval := Trim(s.check.interval), timeout := Trim(s.check.timeout)))
  }

  function ServicesFrom(services: seq<D.Service>): seq<D.Service> {
    seq(|services|, i requires 0 <= i < |services| => ServiceFrom(services[i]))
  }

  function Urls(w: D.Writer, routes: seq<Route>): seq<string> {
    seq(|routes|, i requires 0 <= i < |routes| => w.url(routes[i].ip, routes[i].port))
  }

  function FabricOf(w: D.Writer, s: Site, m: Machine, standby: bool, port: int): D.Fabric {
    D.Fabric(ServerName(m, standby), ClusterName(s), w.join(Trim(m.ip), port),
             Urls(w, RoutesFrom(Nodes(s.machines), m.name, standby)))
  }

  function ServiceName(w: Option<WinService>): Option<string> {
    if w.None? then None else Some(w.value.name)
  }

  /** One instance's record, None if it is not deployed. */
  function InstanceOf(w: D.Writer, s: Site, m: Machine, standby: bool): Option<D.Instance> {
    var e, f := EndpointsOf(m, standby), FilesOf(m, standby);
    if e.None? then None
    else Some(D.Instance(
      ServiceName(PolicyOf(m, standby).value.service), f.events, f.state, f.log,
      w.join(D.LOOPBACK, e.value.api), e.value.readHeaderTimeout, e.value.shutdownTimeout,
      FabricOf(w, s, m, standby, e.value.cluster)))
  }

  const NO_INSTANCE := D.Instance(None, "", "", "", "", "", "", D.Fabric("", "", "", []))

  function RecordOf(w: D.Writer, platform: string, p: Project, s: Site, m: Machine,
                    inventory: seq<D.SiteService>): D.Deployable {
    var primary := InstanceOf(w, s, m, false);
    D.Deployable(platform, p.name, p.environment, s.name, m.name, m.profile, m.ip, ServicesFrom(m.services), inventory,
                 Trim(m.eventstore), if primary.None? then NO_INSTANCE else primary.value,
                 InstanceOf(w, s, m, true), LeaseOf(m))
  }

  method BuildInstance(w: D.Writer, s: Site, m: Machine, standby: bool) returns (r: Option<D.Instance>)
    ensures r == InstanceOf(w, s, m, standby)
  {
    var endpoints := EndpointsOf(m, standby);
    if endpoints.None? {
      return None;
    }
    var files := FilesOf(m, standby);
    var routes := NatsRoutes(s.machines, m.name, standby);
    var e := endpoints.value;
    r := Some(D.Instance(
      ServiceName(PolicyOf(m, standby).value.service), files.events, files.state, files.log,
      w.join(D.LOOPBACK, e.api), e.readHeaderTimeout, e.shutdownTimeout,
      D.Fabric(ServerName(m, standby), ClusterName(s), w.join(Trim(m.ip), e.cluster), Urls(w, routes))));
  }

  // ----- the plan

  type Making = (Site, Machine, seq<D.SiteService>) -> D.Deployable

  function MakingOf(w: D.Writer, platform: string, p: Project): Making {
    (s: Site, m: Machine, inventory: seq<D.SiteService>) => RecordOf(w, platform, p, s, m, inventory)
  }

  ghost predicate Derives(own: Own, s: Site) {
    Inventory(own, s.machines).Some?
  }

  /** The site's inventory derives, and the record of each of its machines passes. */
  ghost predicate Planned(own: Own, make: Making, accept: D.Deployable -> bool, s: Site) {
    Derives(own, s) && forall m :: m in s.machines ==> Passes(own, make, accept, s, m)
  }

  /** The plan of a site: its machines in order, each told the whole inventory. */
  function SitePlan(make: Making, s: Site, inventory: seq<D.SiteService>, n: nat): (r: seq<D.Deployable>)
    requires n <= |s.machines|
    ensures |r| == n
  {
    if n == 0 then [] else SitePlan(make, s, inventory, n - 1) + [make(s, s.machines[n - 1], inventory)]
  }

  ghost predicate AllDerive(own: Own, sites: seq<Site>) {
    forall i :: 0 <= i < |sites| ==> Derives(own, sites[i])
  }

  function PlanOf(own: Own, make: Making, sites: seq<Site>): seq<D.Deployable>
    requires AllDerive(own, sites)
  {
    if sites == [] then []
    else
      var last := sites[|sites| - 1];
      assert Derives(own, last);
      PlanOf(own, make, sites[..|sites| - 1])
      + SitePlan(make, last, Inventory(own, last.machines).value, |last.machines|)
  }

  /** What the build tool says of a record. */
  ghost function AcceptanceOf(x: D.Syntax): D.Deployable -> bool {
    (d: D.Deployable) => B.Accepts(x, d)
  }

  ghost predicate Judges(x: D.Syntax, accept: D.Deployable -> bool) {
    forall d {:trigger B.Accepts(x, d)} :: accept(d) <==> B.Accepts(x, d)
  }

  ghost predicate Makes(w: D.Writer, platform: string, p: Project, make: Making) {
    forall s, m, inventory {:trigger RecordOf(w, platform, p, s, m, inventory)} ::
      make(s, m, inventory) == RecordOf(w, platform, p, s, m, inventory)
  }

  /** The record of one machine derives and passes. */
  ghost predicate Passes(own: Own, make: Making, accept: D.Deployable -> bool, s: Site, m: Machine) {
    Derives(own, s) && accept(make(s, m, Inventory(own, s.machines).value))
  }

  method BuildRecord(w: D.Writer, platform: string, p: Project, s: Site, m: Machine, inventory: seq<D.SiteService>,
                     ghost make: Making)
    returns (d: D.Deployable)
    requires Makes(w, platform, p, make)
    ensures d == make(s, m, inventory)
  {
    var primary := BuildInstance(w, s, m, false);
    var standby := BuildInstance(w, s, m, true);
    d := D.Deployable(
      platform, p.name, p.environment, s.name, m.name, m.profile, m.ip, ServicesFrom(m.services), inventory,
      Trim(m.eventstore), if primary.None? then NO_INSTANCE else primary.value, standby, LeaseOf(m));
    assert d == RecordOf(w, platform, p, s, m, inventory);
  }

  method Judge(x: D.Syntax, d: D.Deployable, ghost accept: D.Deployable -> bool) returns (ok: bool)
    requires Judges(x, accept)
    ensures ok <==> accept(d)
  {
    ok := B.Validate(x, d);
  }

  method BuildMachine(x: D.Syntax, w: D.Writer, platform: string, p: Project, s: Site, m: Machine,
                      ghost make: Making, ghost accept: D.Deployable -> bool) returns (r: Option<D.Deployable>)
    requires Makes(w, platform, p, make) && Judges(x, accept)
    ensures r.Some? <==> Passes(OwnOf(x, w), make, accept, s, m)
    ensures r.Some? ==> r.value == make(s, m, Inventory(OwnOf(x, w), s.machines).value)
  {
    var inventory := SiteServices(x, w, s.machines);
    if inventory.None? {
      return None;
    }
    var d := BuildRecord(w, platform, p, s, m, inventory.value, make);
    var ok := Judge(x, d, accept);
    r := if ok then Some(d) else None;
  }

  method BuildSite(x: D.Syntax, w: D.Writer, platform: string, p: Project, s: Site,
                   ghost make: Making, ghost accept: D.Deployable -> bool) returns (r: Option<seq<D.Deployable>>)
    requires Makes(w, platform, p, make) && Judges(x, accept)
    ensures r.Some? <==> Planned(OwnOf(x, w), make, accept, s)
    ensures r.Some? ==> r.value == SitePlan(make, s, Inventory(OwnOf(x, w), s.machines).value, |s.machines|)
  {
    var plan: seq<D.Deployable> := [];
    ghost var own := OwnOf(x, w);
    for i := 0 to |s.machines|
      invariant SoFar(own, make, accept, s, i, plan)
    {
      var d := BuildMachine(x, w, platform, p, s, s.machines[i], make, accept);
      if d.None? {
        Refuted(own, make, accept, s, i);
        return None;
      }
      plan := plan + [d.value];
    }
    AllSoFar(own, make, accept, s, plan);
    r := Some(plan);
  }

  ghost predicate SoFar(own: Own, make: Making, accept: D.Deployable -> bool, s: Site, i: nat,
                        plan: seq<D.Deployable>) {
    && i <= |s.machines|
    && (forall j :: 0 <= j < i ==> Passes(own, make, accept, s, s.machines[j]))
    && (i > 0 ==> Derives(own, s) && plan == SitePlan(make, s, Inventory(own, s.machines).value, i))
    && (i == 0 ==> plan == [])
  }

  lemma Refuted(own: Own, make: Making, accept: D.Deployable -> bool, s: Site, i: nat)
    requires i < |s.machines| && !Passes(own, make, accept, s, s.machines[i])
    ensures !Planned(own, make, accept, s)
  {
    assert s.machines[i] in s.machines;
  }

  lemma AllSoFar(own: Own, make: Making, accept: D.Deployable -> bool, s: Site, plan: seq<D.Deployable>)
    requires SoFar(own, make, accept, s, |s.machines|, plan)
    ensures Planned(own, make, accept, s) && plan == SitePlan(make, s, Inventory(own, s.machines).value, |s.machines|)
  {
  }

  ghost predicate AllPlanned(own: Own, make: Making, accept: D.Deployable -> bool, sites: seq<Site>) {
    forall i :: 0 <= i < |sites| ==> Planned(own, make, accept, sites[i])
  }

  ghost predicate SitesSoFar(own: Own, make: Making, accept: D.Deployable -> bool, sites: seq<Site>,
                             made: seq<D.Deployable>) {
    AllPlanned(own, make, accept, sites) && AllDerive(own, sites) && made == PlanOf(own, make, sites)
  }

  lemma NextSite(own: Own, make: Making, accept: D.Deployable -> bool, sites: seq<Site>, k: nat,
                 made: seq<D.Deployable>)
    requires k < |sites| && SitesSoFar(own, make, accept, sites[..k], made) && Planned(own, make, accept, sites[k])
    ensures SitesSoFar(own, make, accept, sites[..k + 1],
                       made + SitePlan(make, sites[k], Inventory(own, sites[k].machines).value, |sites[k].machines|))
  {
    assert sites[..k + 1][..k] == sites[..k] && sites[..k + 1][k] == sites[k];
  }

  method BuildSites(x: D.Syntax, w: D.Writer, platform: string, p: Project,
                    ghost make: Making, ghost accept: D.Deployable -> bool) returns (plan: Option<seq<D.Deployable>>)
    requires Makes(w, platform, p, make) && Judges(x, accept)
    ensures plan.Some? <==> AllPlanned(OwnOf(x, w), make, accept, p.sites)
    ensures plan.Some? ==> AllDerive(OwnOf(x, w), p.sites) && plan.value == PlanOf(OwnOf(x, w), make, p.sites)
  {
    ghost var own := OwnOf(x, w);
    var made: seq<D.Deployable> := [];
    for k := 0 to |p.sites|
      invariant SitesSoFar(own, make, accept, p.sites[..k], made)
    {
      var site := BuildSite(x, w, platform, p, p.sites[k], make, accept);
      if site.None? {
        return None;
      }
      NextSite(own, make, accept, p.sites, k, made);
      made := made + site.value;
    }
    assert p.sites[..|p.sites|] == p.sites;
    plan := Some(made);
  }

  /** A plan exactly for a valid project all of whose inventories derive and all of whose records pass. */
  method Build(x: D.Syntax, w: D.Writer, p: Project, platform: string) returns (plan: Option<seq<D.Deployable>>)
    ensures plan.Some?
            <==> ProjectOk(x, p) && AllPlanned(OwnOf(x, w), MakingOf(w, platform, p), AcceptanceOf(x), p.sites)
    ensures plan.Some? ==> AllDerive(OwnOf(x, w), p.sites)
                           && plan.value == PlanOf(OwnOf(x, w), MakingOf(w, platform, p), p.sites)
  {
    var ok := Validate(x, p);
    if !ok {
      return None;
    }
    plan := BuildSites(x, w, platform, p, MakingOf(w, platform, p), AcceptanceOf(x));
  }

  // ----- where a record comes from

  ghost predicate PlannedAt(own: Own, make: Making, sites: seq<Site>, d: D.Deployable, k: nat, m: Machine) {
    && k < |sites| && m in sites[k].machines && Derives(own, sites[k])
    && d == make(sites[k], m, Inventory(own, sites[k].machines).value)
  }

  lemma {:induction false} InSitePlan(make: Making, s: Site, inventory: seq<D.SiteService>, n: nat, d: D.Deployable)
    requires n <= |s.machines| && d in SitePlan(make, s, inventory, n)
    ensures exists m :: m in s.machines && d == make(s, m, inventory)
  {
    if d != make(s, s.machines[n - 1], inventory) {
      InSitePlan(make, s, inventory, n - 1, d);
    }
  }

  lemma {:induction false} PlanIsPlaced(own: Own, make: Making, sites: seq<Site>, d: D.Deployable)
    requires AllDerive(own, sites) && d in PlanOf(own, make, sites)
    ensures exists k, m :: PlannedAt(own, make, sites, d, k, m)
  {
    var n := |sites| - 1;
    var last := sites[n];
    if d in PlanOf(own, make, sites[..n]) {
      PlanIsPlaced(own, make, sites[..n], d);
      var k, m :| PlannedAt(own, make, sites[..n], d, k, m);
      assert PlannedAt(own, make, sites, d, k, m);
    } else {
      InSitePlan(make, last, Inventory(own, last.machines).value, |last.machines|, d);
      var m :| m in last.machines && d == make(last, m, Inventory(own, last.machines).value);
      assert PlannedAt(own, make, sites, d, n, m);
    }
  }

  lemma SameSite(sites: seq<Site>, k: nat, l: nat)
    requires Distinct(sites, SiteName) && k < |sites| && l < |sites| && sites[k].name == sites[l].name
    ensures k == l
  {
    assert SiteName(sites[k]) == SiteName(sites[l]);
  }

  /** Two machines of one site are told the same inventory, in the same order. */
  lemma OneInventoryPerSite(x: D.Syntax, w: D.Writer, p: Project, platform: string, d: D.Deployable, e: D.Deployable)
    requires ProjectOk(x, p) && AllDerive(OwnOf(x, w), p.sites)
    requires d in PlanOf(OwnOf(x, w), MakingOf(w, platform, p), p.sites)
    requires e in PlanOf(OwnOf(x, w), MakingOf(w, platform, p), p.sites)
    ensures d.site == e.site ==> d.siteServices == e.siteServices
  {
    var own, make := OwnOf(x, w), MakingOf(w, platform, p);
    PlanIsPlaced(own, make, p.sites, d);
    PlanIsPlaced(own, make, p.sites, e);
    var k, m :| PlannedAt(own, make, p.sites, d, k, m);
    var l, n :| PlannedAt(own, make, p.sites, e, l, n);
    if d.site == e.site {
      SameSite(p.sites, k, l);
    }
  }
}
