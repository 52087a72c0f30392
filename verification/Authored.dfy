/** A reference for the validation of a blueprint: what a well authored machine and project are, by meaning. */
module Authored {
  import opened Options
  import opened Registry
  import opened Text
  import opened Blueprint
  import opened WellFormed
  import D = Descriptor

  // ----- one machine

  /** The policies of the instances the machine deploys: the primary, and the standby unless it is disabled. */
  function Deploying(m: Machine): seq<Policy> {
    (if m.primary.Some? then [m.primary.value] else [])
    + (if m.standby.Some? && !m.standby.value.disabled then [m.standby.value.policy] else [])
  }

  /** A Windows service name the service manager takes. */
  predicate ServiceNamed(w: WinService) {
    && Named(w.name) && Bytes(w.name) < 257 && Bytes(w.displayName) < 257
    && forall c :: c in w.name ==> c != '/' && c != '\\'
  }

  /** Everything a deployed instance needs is there. */
  predicate Complete(x: D.Syntax, q: Policy) {
    && q.api.Some? && UsablePort(q.api.value.port) && q.cluster.Some? && UsablePort(q.cluster.value)
    && Lasts(x.duration, q.api.value.readHeaderTimeout) && Lasts(x.duration, q.api.value.shutdownTimeout)
    && Trim(q.files.events) != "" && Trim(q.files.state) != "" && Trim(q.files.log) != ""
    && q.service.Some? && ServiceNamed(q.service.value)
  }

  /** A standby that is not deployed authors nothing of an instance. */
  predicate Absent(s: Standby) {
    && Trim(s.policy.files.events) == "" && Trim(s.policy.files.state) == "" && Trim(s.policy.files.log) == ""
    && s.policy.api.None? && s.policy.cluster.None? && s.policy.service.None? && s.lease.None?
  }

  predicate Leasing(x: D.Syntax, s: Standby) {
    && s.lease.Some?
    && var l := s.lease.value;
       && Named(l.file)
       && Lasts(x.duration, l.duration) && Lasts(x.duration, l.renewal)
       && Lasts(x.duration, l.healthCheck) && Lasts(x.duration, l.failback)
       && x.duration(l.renewal).value < x.duration(l.duration).value
  }

  function ServiceIn(q: Policy): Option<string> {
    if q.service.None? then None else Some(q.service.value.name)
  }

  function FilesIn(q: Policy): seq<string> {
    [Trim(q.files.events), Trim(q.files.state), Trim(q.files.log)]
  }

  function PortsIn(q: Policy): seq<int> {
    (if q.api.Some? then [q.api.value.port] else []) + (if q.cluster.Some? then [q.cluster.value] else [])
  }

  function AllFiles(qs: seq<Policy>): seq<string> {
    if qs == [] then [] else FilesIn(qs[0]) + AllFiles(qs[1..])
  }

  function AllPorts(qs: seq<Policy>): seq<int> {
    if qs == [] then [] else PortsIn(qs[0]) + AllPorts(qs[1..])
  }

  /** A well authored machine. */
  ghost predicate WellAuthored(x: D.Syntax, m: Machine) {
    && Trim(m.name) != "" && Trim(m.profile) != "" && Trim(m.ip) != "" && x.ip(m.ip)
    && HostsWell(x, x.duration, m.services)
    && m.primary.Some? && m.standby.Some?
    && (forall q :: q in Deploying(m) ==> Complete(x, q))
    && (if m.standby.value.disabled then Absent(m.standby.value)
        else Leasing(x, m.standby.value) && ServiceIn(m.primary.value) != ServiceIn(m.standby.value.policy))
    && Singly([m.eventstore] + AllFiles(Deploying(m)), x.pathKey) && Named(m.eventstore)
    && (!m.standby.value.disabled ==>
          x.pathKey(m.standby.value.lease.value.file) != x.pathKey(m.eventstore))
    && Singly(AllPorts(Deploying(m)), (p: int) => p)
    && (forall s :: s in m.services ==> s.check.port !in AllPorts(Deploying(m)))
    && Singly(m.services, (s: D.Service) => (s.check.port, s.check.path))
  }

  // ----- the validator's answer is it

  lemma DeployedAre(m: Machine)
    requires m.primary.Some? && m.standby.Some?
    ensures m.standby.value.disabled ==> Deploying(m) == [m.primary.value]
    ensures !m.standby.value.disabled ==> Deploying(m) == [m.primary.value, m.standby.value.policy]
    ensures PolicyOf(m, true) == if m.standby.value.disabled then None else Some(m.standby.value.policy)
  {
  }

  lemma TwoAreAll(q: Policy, r: Policy)
    ensures AllFiles([q]) == FilesIn(q) && AllFiles([q, r]) == FilesIn(q) + FilesIn(r)
    ensures AllPorts([q]) == PortsIn(q) && AllPorts([q, r]) == PortsIn(q) + PortsIn(r)
  {
    assert [q][1..] == [] && [q, r][1..] == [r] && [r][1..] == [];
    assert AllFiles([]) == [] && AllPorts([]) == [];
    assert AllFiles([r]) == FilesIn(r) && AllPorts([r]) == PortsIn(r);
  }

  lemma FilesAre(m: Machine)
    requires m.primary.Some? && m.standby.Some?
    ensures OwnFiles(m) == AllFiles(Deploying(m))
  {
    DeployedAre(m);
    TwoAreAll(m.primary.value, m.standby.value.policy);
    assert Listed(FilesOf(m, false)) == FilesIn(m.primary.value);
    if !m.standby.value.disabled {
      assert Listed(FilesOf(m, true)) == FilesIn(m.standby.value.policy);
    }
  }

  lemma PortsAre(x: D.Syntax, m: Machine)
    requires BlocksOk(x, m)
    ensures ListenerPorts(m) == AllPorts(Deploying(m))
  {
    DeployedAre(m);
    TwoAreAll(m.primary.value, m.standby.value.policy);
    assert PortsOf(EndpointsOf(m, false)) == PortsIn(m.primary.value);
    if m.standby.value.disabled {
      assert PortsOf(EndpointsOf(m, true)) == [];
    } else {
      assert PortsOf(EndpointsOf(m, true)) == PortsIn(m.standby.value.policy);
    }
  }

  predicate FilesThere(q: Policy) {
    Trim(q.files.events) != "" && Trim(q.files.state) != "" && Trim(q.files.log) != ""
  }

  lemma FilesNonBlank(q: Policy)
    ensures AllValid(FilesIn(q), (f: string) => f != "") <==> FilesThere(q)
  {
    var files := FilesIn(q);
    assert files[0] == Trim(q.files.events) && files[1] == Trim(q.files.state) && files[2] == Trim(q.files.log);
  }

  lemma AllValidConcat<U>(a: seq<U>, b: seq<U>, valid: U -> bool)
    ensures AllValid(a + b, valid) <==> AllValid(a, valid) && AllValid(b, valid)
  {
    assert forall i :: 0 <= i < |a| ==> (a + b)[i] == a[i];
    assert forall i :: 0 <= i < |b| ==> (a + b)[|a| + i] == b[i];
  }

  lemma FilesMean(x: D.Syntax, m: Machine)
    requires m.primary.Some? && m.standby.Some?
    ensures FilesOk(x, m)
            <==> Singly(AllFiles(Deploying(m)), x.pathKey) && forall q :: q in Deploying(m) ==> FilesThere(q)
  {
    var p, s := m.primary.value, m.standby.value.policy;
    FilesAre(m);
    DeployedAre(m);
    TwoAreAll(p, s);
    FilesNonBlank(p);
    FilesNonBlank(s);
    AllValidConcat(FilesIn(p), FilesIn(s), (f: string) => f != "");
    SinglyMeans(OwnFiles(m), x.pathKey, x.pathKey);
  }

  lemma WithOneInFront(first: string, rest: seq<string>, key: string -> string)
    ensures Singly([first] + rest, key) <==> Singly(rest, key) && forall f :: f in rest ==> key(f) != key(first)
  {
    var all := [first] + rest;
    assert forall i :: 0 <= i < |rest| ==> all[i + 1] == rest[i];
    if Singly(all, key) {
      forall f | f in rest
        ensures key(f) != key(first)
      {
        var i :| 0 <= i < |rest| && rest[i] == f;
        assert key(all[i + 1]) == key(all[0]) ==> i + 1 == 0;
      }
      forall i, j | 0 <= i < |rest| && 0 <= j < |rest| && key(rest[i]) == key(rest[j])
        ensures i == j
      {
        assert key(all[i + 1]) == key(all[j + 1]);
      }
    }
    if Singly(rest, key) && forall f :: f in rest ==> key(f) != key(first) {
      forall i, j | 0 <= i < |all| && 0 <= j < |all| && key(all[i]) == key(all[j])
        ensures i == j
      {
        assert i > 0 ==> all[i] in rest;
        assert j > 0 ==> all[j] in rest;
        if i > 0 && j > 0 {
          assert key(rest[i - 1]) == key(rest[j - 1]);
        }
      }
    }
  }

  lemma StoreMeans(x: D.Syntax, m: Machine)
    requires m.primary.Some? && m.standby.Some? && (m.standby.value.lease.Some? || m.standby.value.disabled)
    ensures FilesOk(x, m) && StoreOk(x, m)
            <==> && Singly([m.eventstore] + AllFiles(Deploying(m)), x.pathKey) && Named(m.eventstore)
                 && (forall q :: q in Deploying(m) ==> FilesThere(q))
                 && (!m.standby.value.disabled ==>
                       x.pathKey(m.standby.value.lease.value.file) != x.pathKey(m.eventstore))
  {
    FilesMean(x, m);
    FilesAre(m);
    WithOneInFront(m.eventstore, OwnFiles(m), x.pathKey);
  }

  lemma PortsMean(x: D.Syntax, m: Machine)
    requires BlocksOk(x, m)
    ensures PortsApart(m)
            <==> && Singly(AllPorts(Deploying(m)), (p: int) => p)
                 && (forall s :: s in m.services ==> s.check.port !in AllPorts(Deploying(m)))
                 && Singly(m.services, (s: D.Service) => (s.check.port, s.check.path))
  {
    PortsAre(x, m);
    SinglyMeans(ListenerPorts(m), (p: int) => p, (p: int) => p);
    SinglyMeans(m.services, D.ProbeOf, (s: D.Service) => (s.check.port, s.check.path));
  }

  lemma PolicyMeans(x: D.Syntax, q: Policy)
    requires FilesThere(q)
    ensures EndpointsOk(x, q) && q.service.Some? && WinServiceOk(q.service.value) <==> Complete(x, q)
  {
    if q.service.Some? {
      ServiceMeans(q.service.value);
    }
  }

  lemma ServiceMeans(w: WinService)
    ensures WinServiceOk(w) <==> ServiceNamed(w)
  {
  }

  lemma LeaseMeans(x: D.Syntax, s: Standby)
    requires !s.disabled
    ensures LeaseOk(x, s) <==> Leasing(x, s)
  {
  }

  /** The blocks and service identities are complete, but for the files, which are asked about together. */
  lemma BlocksMean(x: D.Syntax, m: Machine)
    requires m.primary.Some? && m.standby.Some? && forall q :: q in Deploying(m) ==> FilesThere(q)
    ensures BlocksOk(x, m) && WinServicesOk(m) && LeaseOk(x, m.standby.value)
            <==> && (forall q :: q in Deploying(m) ==> Complete(x, q))
                 && (if m.standby.value.disabled then Absent(m.standby.value)
                     else
                       && Leasing(x, m.standby.value)
                       && ServiceIn(m.primary.value) != ServiceIn(m.standby.value.policy))
  {
    DeployedAre(m);
    PolicyMeans(x, m.primary.value);
    if !m.standby.value.disabled {
      PolicyMeans(x, m.standby.value.policy);
      LeaseMeans(x, m.standby.value);
    }
  }

  /** Validation accepts exactly the well authored machines. */
  lemma MachineIsAcceptedExactlyWhen(x: D.Syntax, m: Machine)
    ensures MachineOk(x, m) <==> WellAuthored(x, m)
  {
    HostedMeans(x, x.duration, m.services);
    if MachineOk(x, m) || WellAuthored(x, m) {
      FilesMean(x, m);
      StoreMeans(x, m);
      BlocksMean(x, m);
      PortsMean(x, m);
    }
  }

  // ----- the whole project

  /** Machine i of site k. */
  predicate Placed(sites: seq<Site>, k: nat, i: nat) {
    k < |sites| && i < |sites[k].machines|
  }

  /** No two places anywhere hold machines of one key. */
  ghost predicate ApartAcross(sites: seq<Site>, key: Machine -> string) {
    forall k: nat, i: nat, l: nat, j: nat ::
      Placed(sites, k, i) && Placed(sites, l, j) && key(sites[k].machines[i]) == key(sites[l].machines[j]) ==>
        k == l && i == j
  }

  /**
   Sites are named and form clusters of their own; machines are well authored, and no two
   anywhere share name or ip.
   */
  ghost predicate WellPlanned(x: D.Syntax, p: Project) {
    && Trim(p.name) != "" && Trim(p.environment) != "" && |p.sites| > 0
    && (forall s :: s in p.sites ==> Trim(s.name) != "" && s.cluster.Some? && Named(s.cluster.value))
    && Singly(p.sites, (s: Site) => s.name) && Singly(p.sites, (s: Site) => s.cluster)
    && (forall k: nat, i: nat :: Placed(p.sites, k, i) ==> WellAuthored(x, p.sites[k].machines[i]))
    && ApartAcross(p.sites, (m: Machine) => m.name) && ApartAcross(p.sites, (m: Machine) => m.ip)
  }

  lemma {:induction false} InAnySite(sites: seq<Site>, m: Machine)
    ensures m in AllMachines(sites) <==> exists k: nat, i: nat :: Placed(sites, k, i) && sites[k].machines[i] == m
  {
    if sites != [] {
      var n := |sites| - 1;
      InAnySite(sites[..n], m);
      if m in sites[n].machines {
        var i: nat :| i < |sites[n].machines| && sites[n].machines[i] == m;
        assert Placed(sites, n, i);
      }
      if k: nat, i: nat :| Placed(sites[..n], k, i) && sites[..n][k].machines[i] == m {
        assert Placed(sites, k, i) && sites[k] == sites[..n][k];
      }
      if k: nat, i: nat :| Placed(sites, k, i) && sites[k].machines[i] == m && k < n {
        assert Placed(sites[..n], k, i) && sites[k] == sites[..n][k];
      }
    }
  }

  lemma DistinctInTwo<U, K>(a: seq<U>, b: seq<U>, key: U -> K)
    ensures Distinct(a + b, key)
            <==> Distinct(a, key) && Distinct(b, key) && forall u, v :: u in a && v in b ==> key(u) != key(v)
  {
    var all := a + b;
    assert forall i :: 0 <= i < |a| ==> all[i] == a[i];
    assert forall i :: 0 <= i < |b| ==> all[|a| + i] == b[i];
    if Distinct(all, key) {
      forall u, v | u in a && v in b
        ensures key(u) != key(v)
      {
        var i :| 0 <= i < |a| && a[i] == u;
        var j :| 0 <= j < |b| && b[j] == v;
        assert key(all[i]) != key(all[|a| + j]);
      }
      forall i, j | 0 <= i < j < |b|
        ensures key(b[i]) != key(b[j])
      {
        assert key(all[|a| + i]) != key(all[|a| + j]);
      }
    }
    if Distinct(a, key) && Distinct(b, key) && forall u, v :: u in a && v in b ==> key(u) != key(v) {
      forall i, j | 0 <= i < j < |all|
        ensures key(all[i]) != key(all[j])
      {
        if i < |a| <= j {
          assert a[i] in a && b[j - |a|] in b;
        }
      }
    }
  }

  lemma AcrossSplits(sites: seq<Site>, key: Machine -> string)
    requires sites != []
    ensures var n := |sites| - 1;
            ApartAcross(sites, key)
            <==> && ApartAcross(sites[..n], key) && Singly(sites[n].machines, key)
                 && forall k: nat, i: nat, m :: Placed(sites[..n], k, i) && m in sites[n].machines ==>
                      key(sites[k].machines[i]) != key(m)
  {
    var n := |sites| - 1;
    if ApartAcross(sites, key) {
      ApartBefore(sites, key);
    }
    if && ApartAcross(sites[..n], key) && Singly(sites[n].machines, key)
       && forall k: nat, i: nat, m :: Placed(sites[..n], k, i) && m in sites[n].machines ==>
            key(sites[k].machines[i]) != key(m) {
      forall k: nat, i: nat, l: nat, j: nat
        | Placed(sites, k, i) && Placed(sites, l, j) && key(sites[k].machines[i]) == key(sites[l].machines[j])
        ensures k == l && i == j
      {
        assert k < n ==> Placed(sites[..n], k, i);
        assert l < n ==> Placed(sites[..n], l, j);
      }
    }
  }

  lemma ApartBefore(sites: seq<Site>, key: Machine -> string)
    requires sites != [] && ApartAcross(sites, key)
    ensures var n := |sites| - 1;
            && ApartAcross(sites[..n], key) && Singly(sites[n].machines, key)
            && forall k: nat, i: nat, m :: Placed(sites[..n], k, i) && m in sites[n].machines ==>
                 key(sites[k].machines[i]) != key(m)
  {
    var n := |sites| - 1;
    forall k: nat, i: nat, l: nat, j: nat
      | Placed(sites[..n], k, i) && Placed(sites[..n], l, j)
        && key(sites[..n][k].machines[i]) == key(sites[..n][l].machines[j])
      ensures k == l && i == j
    {
      assert Placed(sites, k, i) && Placed(sites, l, j);
    }
    forall i, j | 0 <= i < |sites[n].machines| && 0 <= j < |sites[n].machines|
                  && key(sites[n].machines[i]) == key(sites[n].machines[j])
      ensures i == j
    {
      assert Placed(sites, n, i) && Placed(sites, n, j);
    }
    forall k: nat, i: nat, m | Placed(sites[..n], k, i) && m in sites[n].machines
      ensures key(sites[k].machines[i]) != key(m)
    {
      var j: nat :| j < |sites[n].machines| && sites[n].machines[j] == m;
      assert Placed(sites, k, i) && Placed(sites, n, j);
    }
  }

  /** Keys apart in the list of all machines are keys apart across sites. */
  lemma {:induction false} AcrossMeans(sites: seq<Site>, key: Machine -> string)
    ensures Distinct(AllMachines(sites), key) <==> ApartAcross(sites, key)
  {
    if sites != [] {
      var n := |sites| - 1;
      AcrossMeans(sites[..n], key);
      AcrossSplits(sites, key);
      DistinctInTwo(AllMachines(sites[..n]), sites[n].machines, key);
      SinglyMeans(sites[n].machines, key, key);
      KeysOfOthers(sites, key);
    }
  }

  lemma KeysOfOthers(sites: seq<Site>, key: Machine -> string)
    requires sites != []
    ensures var n := |sites| - 1;
            (forall u, v :: u in AllMachines(sites[..n]) && v in sites[n].machines ==> key(u) != key(v))
            <==> forall k: nat, i: nat, m :: Placed(sites[..n], k, i) && m in sites[n].machines ==>
                   key(sites[k].machines[i]) != key(m)
  {
    var n := |sites| - 1;
    forall u {
      InAnySite(sites[..n], u);
    }
    if forall u, v :: u in AllMachines(sites[..n]) && v in sites[n].machines ==> key(u) != key(v) {
      forall k: nat, i: nat, m | Placed(sites[..n], k, i) && m in sites[n].machines
        ensures key(sites[k].machines[i]) != key(m)
      {
        InAnySite(sites[..n], sites[k].machines[i]);
        assert sites[..n][k] == sites[k];
        assert sites[k].machines[i] in AllMachines(sites[..n]);
      }
    }
  }

  lemma SiteMeans(s: Site)
    ensures SiteOk(s) <==> Trim(s.name) != "" && s.cluster.Some? && Named(s.cluster.value)
    ensures SiteOk(s) ==> Some(ClusterName(s)) == s.cluster
  {
  }

  lemma SitesMean(sites: seq<Site>)
    ensures SitesOk(sites)
            <==> && (forall s :: s in sites ==> Trim(s.name) != "" && s.cluster.Some? && Named(s.cluster.value))
                 && Singly(sites, (s: Site) => s.name) && Singly(sites, (s: Site) => s.cluster)
  {
    forall s {
      SiteMeans(s);
    }
    assert AllValid(sites, SiteOk) <==> forall s :: s in sites ==> SiteOk(s);
    SinglyMeans(sites, SiteName, (s: Site) => s.name);
    if AllValid(sites, SiteOk) {
      SinglyMeans(sites, ClusterName, (s: Site) => s.cluster);
    }
  }

  lemma MachinesMean(x: D.Syntax, sites: seq<Site>)
    ensures AllValid(AllMachines(sites), OkMachine(x))
            <==> forall k: nat, i: nat :: Placed(sites, k, i) ==> WellAuthored(x, sites[k].machines[i])
  {
    var all := AllMachines(sites);
    assert AllValid(all, OkMachine(x)) <==> forall m :: m in all ==> OkMachine(x)(m);
    forall m
      ensures OkMachine(x)(m) <==> WellAuthored(x, m)
      ensures m in all <==> exists k: nat, i: nat :: Placed(sites, k, i) && sites[k].machines[i] == m
    {
      MachineIsAcceptedExactlyWhen(x, m);
      InAnySite(sites, m);
    }
    if forall m :: m in all ==> WellAuthored(x, m) {
      forall k: nat, i: nat | Placed(sites, k, i)
        ensures WellAuthored(x, sites[k].machines[i])
      {
        assert sites[k].machines[i] in all;
      }
    }
  }

  /** Validation accepts exactly the well planned projects. */
  lemma ProjectIsAcceptedExactlyWhen(x: D.Syntax, p: Project)
    ensures ProjectOk(x, p) <==> WellPlanned(x, p)
  {
    SitesMean(p.sites);
    MachinesMean(x, p.sites);
    AcrossMeans(p.sites, MachineName);
    AcrossMeans(p.sites, MachineIp);
    SameKeys(p.sites, MachineName, (m: Machine) => m.name);
    SameKeys(p.sites, MachineIp, (m: Machine) => m.ip);
  }

  lemma SameKeys(sites: seq<Site>, key: Machine -> string, other: Machine -> string)
    requires forall m :: key(m) == other(m)
    ensures ApartAcross(sites, key) <==> ApartAcross(sites, other)
  {
  }
}
