/** The authored topology, and what makes a project valid. */
module Blueprint {
  import opened Options
  import opened Registry
  import opened Text
  import D = Descriptor

  datatype Api = Api(port: int, readHeaderTimeout: string, shutdownTimeout: string)

  datatype WinService = WinService(name: string, displayName: string)

  datatype Files = Files(events: string, state: string, log: string)

  /** One instance's policy, None where a block is missing. cluster is its event fabric port. */
  datatype Policy = Policy(files: Files, api: Option<Api>, cluster: Option<int>, service: Option<WinService>)

  datatype Standby = Standby(disabled: bool, policy: Policy, lease: Option<D.LeaseBlock>)

  datatype Machine = Machine(
    name: string, profile: string, ip: string, services: seq<D.Service>, eventstore: string,
    primary: Option<Policy>, standby: Option<Standby>)

  datatype Site = Site(name: string, cluster: Option<string>, machines: seq<Machine>)

  datatype Project = Project(name: string, environment: string, sites: seq<Site>)

  // ----- what a machine's blocks amount to

  datatype Endpoints = Endpoints(api: int, readHeaderTimeout: string, shutdownTimeout: string, cluster: int)

  /** The policy of one instance, None if it is not deployed. */
  function PolicyOf(m: Machine, standby: bool): Option<Policy> {
    if !standby then m.primary
    else if m.standby.None? || m.standby.value.disabled then None
    else Some(m.standby.value.policy)
  }

  function EndpointsOf(m: Machine, standby: bool): Option<Endpoints> {
    var p := PolicyOf(m, standby);
    if p.None? || p.value.api.None? then None
    else
      var a := p.value.api.value;
      Some(Endpoints(a.port, Trim(a.readHeaderTimeout), Trim(a.shutdownTimeout),
                     if p.value.cluster.Some? then p.value.cluster.value else 0))
  }

  function FilesOf(m: Machine, standby: bool): Files {
    var p := PolicyOf(m, standby);
    if p.None? then Files("", "", "")
    else Files(Trim(p.value.files.events), Trim(p.value.files.state), Trim(p.value.files.log))
  }

  function LeaseOf(m: Machine): Option<D.LeaseBlock> {
    if PolicyOf(m, true).None? then None else m.standby.value.lease
  }

  function Listed(f: Files): seq<string> {
    [f.events, f.state, f.log]
  }

  /** Every file the deployed instances own. */
  function OwnFiles(m: Machine): seq<string> {
    Listed(FilesOf(m, false)) + (if PolicyOf(m, true).None? then [] else Listed(FilesOf(m, true)))
  }

  // ----- one machine

  predicate Timed(x: D.Syntax, s: string) {
    D.Positive(x.duration, s)
  }

  predicate EndpointsOk(x: D.Syntax, p: Policy) {
    && p.api.Some? && D.PortOk(p.api.value.port)
    && Timed(x, p.api.value.readHeaderTimeout) && Timed(x, p.api.value.shutdownTimeout)
    && p.cluster.Some? && D.PortOk(p.cluster.value)
  }

  /** A disabled standby must author no file, listener or lease. */
  predicate StandbyOk(x: D.Syntax, s: Standby) {
    if !s.disabled then EndpointsOk(x, s.policy)
    else
      && Blank(s.policy.files.events) && Blank(s.policy.files.state) && Blank(s.policy.files.log)
      && s.lease.None? && s.policy.api.None? && s.policy.cluster.None?
  }

  ghost predicate FilesOk(x: D.Syntax, m: Machine) {
    AllValid(OwnFiles(m), (f: string) => f != "") && Distinct(OwnFiles(m), x.pathKey)
  }

  /** The machine's shared store is no instance's file and not the lease. */
  predicate StoreOk(x: D.Syntax, m: Machine) {
    && D.NameOk(m.eventstore)
    && (forall f :: f in OwnFiles(m) ==> x.pathKey(f) != x.pathKey(m.eventstore))
    && (LeaseOf(m).Some? ==> x.pathKey(LeaseOf(m).value.file) != x.pathKey(m.eventstore))
  }

  const MAX_SERVICE_NAME := 256

  predicate WinServiceOk(w: WinService) {
    && D.NameOk(w.name) && Bytes(w.name) <= MAX_SERVICE_NAME && '/' !in w.name && '\\' !in w.name
    && Bytes(w.displayName) <= MAX_SERVICE_NAME
  }

  predicate WinServicesOk(m: Machine)
    requires m.primary.Some? && m.standby.Some?
  {
    var p, s := m.primary.value.service, m.standby.value.policy.service;
    && p.Some? && WinServiceOk(p.value)
    && (if m.standby.value.disabled then s.None?
        else s.Some? && WinServiceOk(s.value) && p.value.name != s.value.name)
  }

  predicate LeaseOk(x: D.Syntax, s: Standby) {
    s.disabled
    || (&& s.lease.Some? && D.NameOk(s.lease.value.file)
        && Timed(x, s.lease.value.duration) && Timed(x, s.lease.value.renewal)
        && Timed(x, s.lease.value.healthCheck) && Timed(x, s.lease.value.failback)
        && x.duration(s.lease.value.renewal).value < x.duration(s.lease.value.duration).value)
  }

  function ListenerPorts(m: Machine): seq<int> {
    PortsOf(EndpointsOf(m, false)) + PortsOf(EndpointsOf(m, true))
  }

  function PortsOf(e: Option<Endpoints>): seq<int> {
    if e.None? then [] else [e.value.api, e.value.cluster]
  }

  ghost predicate PortsApart(m: Machine) {
    && Distinct(ListenerPorts(m), (p: int) => p)
    && AllValid(m.services, (s: D.Service) => s.check.port !in ListenerPorts(m))
    && Distinct(m.services, D.ProbeOf)
  }

  predicate IdentityOk(x: D.Syntax, m: Machine) {
    !Blank(m.name) && !Blank(m.profile) && !Blank(m.ip) && x.ip(m.ip)
  }

  predicate BlocksOk(x: D.Syntax, m: Machine) {
    m.primary.Some? && m.standby.Some? && EndpointsOk(x, m.primary.value) && StandbyOk(x, m.standby.value)
  }

  ghost predicate MachineOk(x: D.Syntax, m: Machine) {
    && IdentityOk(x, m) && D.HostedOk(x, x.duration, m.services) && BlocksOk(x, m)
    && FilesOk(x, m) && StoreOk(x, m) && PortsApart(m)
    && WinServicesOk(m) && LeaseOk(x, m.standby.value)
  }

  method ValidateServices(x: D.Syntax, m: Machine) returns (ok: bool)
    ensures ok <==> D.HostedOk(x, x.duration, m.services)
  {
    if |m.services| == 0 {
      return false;
    }
    var named := Register(m.services, (s: D.Service) => D.ServiceOk(x, x.duration, s), D.NameOf);
    ok := named.Some?;
  }

  method ValidatePorts(m: Machine) returns (ok: bool)
    ensures ok <==> PortsApart(m)
  {
    var taken := Register(ListenerPorts(m), (p: int) => true, (p: int) => p);
    if taken.None? {
      return false;
    }
    assert forall p :: p in taken.value <==> p in ListenerPorts(m);
    var probed := Register(m.services, (s: D.Service) => s.check.port !in taken.value, D.ProbeOf);
    ok := probed.Some?;
  }

  method ValidateMachine(x: D.Syntax, m: Machine) returns (ok: bool)
    ensures ok <==> MachineOk(x, m)
  {
    if !IdentityOk(x, m) {
      return false;
    }
    ok := ValidateServices(x, m);
    if !ok || !BlocksOk(x, m) {
      return false;
    }
    var files := Register(OwnFiles(m), (f: string) => f != "", x.pathKey);
    if files.None? || !StoreOk(x, m) {
      return false;
    }
    ok := ValidatePorts(m);
    if !ok {
      return;
    }
    ok := WinServicesOk(m) && LeaseOk(x, m.standby.value);
  }

  // ----- the project

  predicate SiteOk(s: Site) {
    !Blank(s.name) && s.cluster.Some? && !Blank(s.cluster.value) && s.cluster.value == Trim(s.cluster.value)
  }

  function ClusterName(s: Site): string {
    if s.cluster.None? then "" else Trim(s.cluster.value)
  }

  function AllMachines(sites: seq<Site>): seq<Machine> {
    if sites == [] then [] else AllMachines(sites[..|sites| - 1]) + sites[|sites| - 1].machines
  }

  function SiteName(s: Site): string {
    s.name
  }

  function MachineName(m: Machine): string {
    m.name
  }

  function MachineIp(m: Machine): string {
    m.ip
  }

  ghost function OkMachine(x: D.Syntax): Machine -> bool {
    (m: Machine) => MachineOk(x, m)
  }

  ghost predicate MachinesOk(x: D.Syntax, machines: seq<Machine>) {
    && AllValid(machines, OkMachine(x))
    && Distinct(machines, MachineName) && Distinct(machines, MachineIp)
  }

  ghost predicate SitesOk(sites: seq<Site>) {
    AllValid(sites, SiteOk) && Distinct(sites, SiteName) && Distinct(sites, ClusterName)
  }

  /** Names are unique where they must be: sites and clusters in the project, machines and ips across all sites. */
  ghost predicate ProjectOk(x: D.Syntax, p: Project) {
    && !Blank(p.name) && !Blank(p.environment) && p.sites != []
    && SitesOk(p.sites) && MachinesOk(x, AllMachines(p.sites))
  }

  function Names(machines: seq<Machine>): set<string> {
    set m | m in machines :: m.name
  }

  function Ips(machines: seq<Machine>): set<string> {
    set m | m in machines :: m.ip
  }

  lemma NamesGrow(machines: seq<Machine>, m: Machine)
    ensures Names(machines + [m]) == Names(machines) + {m.name} && Ips(machines + [m]) == Ips(machines) + {m.ip}
  {
  }

  lemma AllValidJoins<U>(items: seq<U>, valid: U -> bool, item: U)
    ensures AllValid(items + [item], valid) <==> AllValid(items, valid) && valid(item)
  {
    var more := items + [item];
    assert more[|items|] == item;
    assert forall i :: 0 <= i < |items| ==> more[i] == items[i];
  }

  lemma MachineJoins(x: D.Syntax, machines: seq<Machine>, m: Machine)
    requires MachinesOk(x, machines)
    ensures MachinesOk(x, machines + [m]) <==> OkMachine(x)(m) && m.name !in Names(machines) && m.ip !in Ips(machines)
  {
    DistinctJoins(machines, MachineName, m);
    DistinctJoins(machines, MachineIp, m);
    AllValidJoins(machines, OkMachine(x), m);
  }

  lemma PrefixMachines(x: D.Syntax, machines: seq<Machine>, more: seq<Machine>)
    requires MachinesOk(x, machines + more)
    ensures MachinesOk(x, machines)
  {
    assert forall i :: 0 <= i < |machines| ==> (machines + more)[i] == machines[i];
  }

  /** One site's machines, after those of the sites before it. */
  method ValidateMachines(x: D.Syntax, machines: seq<Machine>, names: set<string>, ips: set<string>,
                          ghost before: seq<Machine>)
    returns (ok: bool, names': set<string>, ips': set<string>)
    requires MachinesOk(x, before) && names == Names(before) && ips == Ips(before)
    ensures ok <==> MachinesOk(x, before + machines)
    ensures ok ==> names' == Names(before + machines) && ips' == Ips(before + machines)
  {
    ok, names', ips' := true, names, ips;
    assert before + [] == before;
    for i := 0 to |machines|
      invariant MachinesOk(x, before + machines[..i]) && ok
      invariant names' == Names(before + machines[..i]) && ips' == Ips(before + machines[..i])
    {
      var m := machines[i];
      ghost var walked := before + machines[..i];
      assert before + machines[..i + 1] == walked + [m];
      assert before + machines == walked + [m] + machines[i + 1..];
      MachineJoins(x, walked, m);
      NamesGrow(walked, m);
      var good := ValidateMachine(x, m);
      if !good || m.name in names' || m.ip in ips' {
        Spoiled(x, walked + [m], machines[i + 1..]);
        return false, names', ips';
      }
      names', ips' := names' + {m.name}, ips' + {m.ip};
    }
    assert machines[..|machines|] == machines;
  }

  lemma Spoiled(x: D.Syntax, machines: seq<Machine>, more: seq<Machine>)
    requires !MachinesOk(x, machines)
    ensures !MachinesOk(x, machines + more)
  {
    if MachinesOk(x, machines + more) {
      PrefixMachines(x, machines, more);
    }
  }

  lemma SiteJoins(sites: seq<Site>, s: Site)
    requires SitesOk(sites)
    ensures SitesOk(sites + [s])
            <==> SiteOk(s) && (forall v :: v in sites ==> SiteName(v) != SiteName(s))
                 && (forall v :: v in sites ==> ClusterName(v) != ClusterName(s))
  {
    DistinctJoins(sites, SiteName, s);
    DistinctJoins(sites, ClusterName, s);
    var more := sites + [s];
    assert more[|sites|] == s;
    assert forall i :: 0 <= i < |sites| ==> more[i] == sites[i];
  }

  lemma SitesKept(sites: seq<Site>, more: seq<Site>)
    requires SitesOk(sites + more)
    ensures SitesOk(sites)
  {
    assert forall i :: 0 <= i < |sites| ==> (sites + more)[i] == sites[i];
  }

  function SiteNames(sites: seq<Site>): set<string> {
    set s | s in sites :: s.name
  }

  function ClusterNames(sites: seq<Site>): set<string> {
    set s | s in sites :: ClusterName(s)
  }

  lemma SiteSetsGrow(sites: seq<Site>, s: Site)
    ensures SiteNames(sites + [s]) == SiteNames(sites) + {s.name}
    ensures ClusterNames(sites + [s]) == ClusterNames(sites) + {ClusterName(s)}
    ensures AllMachines(sites + [s]) == AllMachines(sites) + s.machines
  {
  }

  lemma {:induction false} MachinesConcat(sites: seq<Site>, more: seq<Site>)
    ensures AllMachines(sites + more) == AllMachines(sites) + AllMachines(more)
  {
    if more == [] {
      assert sites + more == sites;
    } else {
      assert (sites + more)[..|sites + more| - 1] == sites + more[..|more| - 1];
      MachinesConcat(sites, more[..|more| - 1]);
    }
  }

  /** What the four maps hold once some sites were accepted. */
  datatype Taken = Taken(sites: set<string>, clusters: set<string>, machines: set<string>, ips: set<string>)

  ghost predicate Holds(x: D.Syntax, t: Taken, sites: seq<Site>) {
    && SitesOk(sites) && MachinesOk(x, AllMachines(sites))
    && t == Taken(SiteNames(sites), ClusterNames(sites), Names(AllMachines(sites)), Ips(AllMachines(sites)))
  }

  method ValidateSite(x: D.Syntax, s: Site, t: Taken, ghost before: seq<Site>) returns (ok: bool, t': Taken)
    requires Holds(x, t, before)
    ensures ok <==> SitesOk(before + [s]) && MachinesOk(x, AllMachines(before + [s]))
    ensures ok ==> Holds(x, t', before + [s])
  {
    SiteJoins(before, s);
    SiteSetsGrow(before, s);
    t' := t;
    if !SiteOk(s) || s.name in t.sites || ClusterName(s) in t.clusters {
      return false, t;
    }
    var machines, ips;
    ok, machines, ips := ValidateMachines(x, s.machines, t.machines, t.ips, AllMachines(before));
    t' := Taken(t.sites + {s.name}, t.clusters + {ClusterName(s)}, machines, ips);
  }

  lemma ProjectSpoiled(x: D.Syntax, sites: seq<Site>, k: nat)
    requires k < |sites| && !(SitesOk(sites[..k + 1]) && MachinesOk(x, AllMachines(sites[..k + 1])))
    ensures !(SitesOk(sites) && MachinesOk(x, AllMachines(sites)))
  {
    assert sites == sites[..k + 1] + sites[k + 1..];
    MachinesConcat(sites[..k + 1], sites[k + 1..]);
    if SitesOk(sites) {
      SitesKept(sites[..k + 1], sites[k + 1..]);
      Spoiled(x, AllMachines(sites[..k + 1]), AllMachines(sites[k + 1..]));
    }
  }

  /** Accepts exactly the valid projects. */
  method Validate(x: D.Syntax, p: Project) returns (ok: bool)
    ensures ok <==> ProjectOk(x, p)
  {
    if Blank(p.name) || Blank(p.environment) || |p.sites| == 0 {
      return false;
    }
    var taken := Taken({}, {}, {}, {});
    ok := true;
    for k := 0 to |p.sites|
      invariant ok && Holds(x, taken, p.sites[..k])
    {
      assert p.sites[..k + 1] == p.sites[..k] + [p.sites[k]];
      ok, taken := ValidateSite(x, p.sites[k], taken, p.sites[..k]);
      if !ok {
        ProjectSpoiled(x, p.sites, k);
        return;
      }
    }
    assert p.sites[..|p.sites|] == p.sites;
  }
}
