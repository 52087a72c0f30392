/**
 Resolution of a valid project: for every deployed instance the routes to its peers, and
 for every machine the inventory of its site.
 */
module Mesh {
  import opened Options
  import opened Registry
  import opened Sorting
  import opened Blueprint
  import D = Descriptor

  /** A cluster address as a peer dials it. */
  datatype Route = Route(ip: string, port: int)

  /** One deployed instance and where its peers reach it. */
  datatype Node = Node(machine: string, standby: bool, route: Route)

  function NodeAt(m: Machine, standby: bool): seq<Node> {
    var e := EndpointsOf(m, standby);
    if e.None? then [] else [Node(m.name, standby, Route(m.ip, e.value.cluster))]
  }

  function NodesOf(m: Machine): seq<Node> {
    NodeAt(m, false) + NodeAt(m, true)
  }

  /** Every deployed instance of these machines, primary before standby. */
  function Nodes(machines: seq<Machine>): seq<Node> {
    if machines == [] then [] else Nodes(machines[..|machines| - 1]) + NodesOf(machines[|machines| - 1])
  }

  function RouteTo(n: Node, name: string, standby: bool): seq<Route> {
    if n.machine == name && n.standby == standby then [] else [n.route]
  }

  /** The routes one instance carries: those of every other node. */
  function RoutesFrom(nodes: seq<Node>, name: string, standby: bool): seq<Route> {
    if nodes == [] then []
    else RoutesFrom(nodes[..|nodes| - 1], name, standby) + RouteTo(nodes[|nodes| - 1], name, standby)
  }

  lemma {:induction false} RoutesConcat(a: seq<Node>, b: seq<Node>, name: string, standby: bool)
    ensures RoutesFrom(a + b, name, standby) == RoutesFrom(a, name, standby) + RoutesFrom(b, name, standby)
  {
    if b == [] {
      assert a + b == a;
    } else {
      assert (a + b)[..|a + b| - 1] == a + b[..|b| - 1];
      RoutesConcat(a, b[..|b| - 1], name, standby);
    }
  }

  lemma NextPeer(machines: seq<Machine>, i: nat, name: string, standby: bool)
    requires i < |machines|
    ensures RoutesFrom(Nodes(machines[..i + 1]), name, standby)
            == RoutesFrom(Nodes(machines[..i]), name, standby)
               + RoutesFrom(NodeAt(machines[i], false), name, standby)
               + RoutesFrom(NodeAt(machines[i], true), name, standby)
  {
    assert machines[..i + 1][..i] == machines[..i];
    RoutesConcat(Nodes(machines[..i]), NodesOf(machines[i]), name, standby);
    RoutesConcat(NodeAt(machines[i], false), NodeAt(machines[i], true), name, standby);
  }

  method RoutesToRole(peer: Machine, peerStandby: bool, name: string, standby: bool) returns (routes: seq<Route>)
    ensures routes == RoutesFrom(NodeAt(peer, peerStandby), name, standby)
  {
    if peer.name == name && peerStandby == standby {
      return [];
    }
    var endpoints := EndpointsOf(peer, peerStandby);
    if endpoints.None? {
      return [];
    }
    routes := [Route(peer.ip, endpoints.value.cluster)];
  }

  method NatsRoutes(machines: seq<Machine>, name: string, standby: bool) returns (routes: seq<Route>)
    ensures routes == RoutesFrom(Nodes(machines), name, standby)
  {
    routes := [];
    for i := 0 to |machines|
      invariant routes == RoutesFrom(Nodes(machines[..i]), name, standby)
    {
      var peer := machines[i];
      var primary := RoutesToRole(peer, false, name, standby);
      var second := RoutesToRole(peer, true, name, standby);
      NextPeer(machines, i, name, standby);
      routes := routes + primary + second;
    }
    assert machines[..|machines|] == machines;
  }

  // ----- nodes tell each other apart

  lemma {:induction false} InNodes(machines: seq<Machine>, n: Node)
    ensures n in Nodes(machines) <==> exists m :: m in machines && n in NodesOf(m)
  {
    if machines != [] {
      InNodes(machines[..|machines| - 1], n);
      assert machines == machines[..|machines| - 1] + [machines[|machines| - 1]];
    }
  }

  lemma SameMachine<K>(machines: seq<Machine>, key: Machine -> K, m: Machine, m': Machine)
    requires Distinct(machines, key) && m in machines && m' in machines && key(m) == key(m')
    ensures m == m'
  {
  }

  /** One machine's two cluster ports differ, so its two nodes do. */
  lemma OwnNodesDiffer(m: Machine, n: Node, n': Node)
    requires Distinct(ListenerPorts(m), (p: int) => p) && n in NodesOf(m) && n' in NodesOf(m)
    ensures n.route == n'.route || n.standby == n'.standby ==> n == n'
  {
    var p, s := EndpointsOf(m, false), EndpointsOf(m, true);
    if p.Some? && s.Some? {
      var ports := ListenerPorts(m);
      assert ports == [p.value.api, p.value.cluster, s.value.api, s.value.cluster];
      assert ((p: int) => p)(ports[1]) != ((p: int) => p)(ports[3]);
    }
  }

  lemma NodeIsItsMachines(m: Machine, n: Node)
    requires n in NodesOf(m)
    ensures n.machine == m.name && n.route.ip == m.ip
  {
  }

  lemma PortsOfOne(x: D.Syntax, machines: seq<Machine>, m: Machine)
    requires MachinesOk(x, machines) && m in machines
    ensures Distinct(ListenerPorts(m), (p: int) => p)
  {
    var i :| 0 <= i < |machines| && machines[i] == m;
    assert OkMachine(x)(machines[i]);
    assert PortsApart(m);
  }

  /** Across the whole project a route names one instance, and so does a machine name with a role. */
  lemma NodesDiffer(x: D.Syntax, machines: seq<Machine>, n: Node, n': Node)
    requires MachinesOk(x, machines) && n in Nodes(machines) && n' in Nodes(machines)
    ensures n.route == n'.route ==> n == n'
    ensures n.machine == n'.machine && n.standby == n'.standby ==> n == n'
  {
    InNodes(machines, n);
    InNodes(machines, n');
    var m :| m in machines && n in NodesOf(m);
    var m' :| m' in machines && n' in NodesOf(m');
    NodeIsItsMachines(m, n);
    NodeIsItsMachines(m', n');
    if n.route == n'.route {
      SameMachine(machines, MachineIp, m, m');
      PortsOfOne(x, machines, m);
      OwnNodesDiffer(m, n, n');
    } else if n.machine == n'.machine {
      SameMachine(machines, MachineName, m, m');
      PortsOfOne(x, machines, m);
      OwnNodesDiffer(m, n, n');
    }
  }

  lemma NodesOfOneDiffer(m: Machine)
    ensures NoRepeats(NodesOf(m))
  {
  }

  lemma NoRepeatsConcat<T>(a: seq<T>, b: seq<T>)
    requires NoRepeats(a) && NoRepeats(b) && forall v :: v in a ==> v !in b
    ensures NoRepeats(a + b)
  {
    forall i, j | 0 <= i < j < |a + b|
      ensures (a + b)[i] != (a + b)[j]
    {
      if i < |a| <= j {
        assert a[i] in a && b[j - |a|] in b;
      }
    }
  }

  lemma NewNodes(before: seq<Machine>, last: Machine, n: Node)
    requires last.name !in Names(before) && n in Nodes(before)
    ensures n !in NodesOf(last)
  {
    InNodes(before, n);
    var m :| m in before && n in NodesOf(m);
    NodeIsItsMachines(m, n);
    if n in NodesOf(last) {
      NodeIsItsMachines(last, n);
    }
  }

  lemma LastIsNew(machines: seq<Machine>)
    requires machines != [] && Distinct(machines, MachineName)
    ensures machines[|machines| - 1].name !in Names(machines[..|machines| - 1])
  {
    var before, last := machines[..|machines| - 1], machines[|machines| - 1];
    assert machines == before + [last];
    DistinctJoins(before, MachineName, last);
    assert forall m :: m in before ==> MachineName(m) != MachineName(last);
  }

  lemma {:induction false} NodesNoRepeats(machines: seq<Machine>)
    requires Distinct(machines, MachineName) && forall i :: 0 <= i < |machines| ==> NoRepeats(NodesOf(machines[i]))
    ensures NoRepeats(Nodes(machines))
  {
    if machines != [] {
      var before, last := machines[..|machines| - 1], machines[|machines| - 1];
      NodesNoRepeats(before);
      LastIsNew(machines);
      forall n | n in Nodes(before) {
        NewNodes(before, last, n);
      }
      NoRepeatsConcat(Nodes(before), NodesOf(last));
    }
  }

  lemma {:induction false} InRoutes(nodes: seq<Node>, name: string, standby: bool, r: Route)
    ensures r in RoutesFrom(nodes, name, standby)
            <==> exists n :: n in nodes && n.route == r && !(n.machine == name && n.standby == standby)
  {
    if nodes != [] {
      InRoutes(nodes[..|nodes| - 1], name, standby, r);
      assert nodes == nodes[..|nodes| - 1] + [nodes[|nodes| - 1]];
    }
  }

  lemma {:induction false} RoutesNoRepeats(nodes: seq<Node>, name: string, standby: bool)
    requires NoRepeats(nodes) && forall n, n' :: n in nodes && n' in nodes && n.route == n'.route ==> n == n'
    ensures NoRepeats(RoutesFrom(nodes, name, standby))
  {
    if nodes != [] {
      var before, last := nodes[..|nodes| - 1], nodes[|nodes| - 1];
      assert nodes == before + [last];
      RoutesNoRepeats(before, name, standby);
      forall r | r in RoutesFrom(before, name, standby)
        ensures r !in RouteTo(last, name, standby)
      {
        InRoutes(before, name, standby, r);
        var n :| n in before && n.route == r;
        var i :| 0 <= i < |before| && before[i] == n;
        assert nodes[i] == n && nodes[|nodes| - 1] == last;
      }
      NoRepeatsConcat(RoutesFrom(before, name, standby), RouteTo(last, name, standby));
    }
  }

  // ----- the mesh

  /** The instances deployed at one site. */
  function SiteNodes(p: Project, k: nat): seq<Node>
    requires k < |p.sites|
  {
    Nodes(p.sites[k].machines)
  }

  /** What the resolver writes into one instance's record. */
  function RoutesOf(p: Project, k: nat, n: Node): seq<Route>
    requires k < |p.sites|
  {
    RoutesFrom(SiteNodes(p, k), n.machine, n.standby)
  }

  lemma SiteIsPart(x: D.Syntax, p: Project, k: nat)
    requires ProjectOk(x, p) && k < |p.sites|
    ensures AllMachines(p.sites)
            == AllMachines(p.sites[..k]) + p.sites[k].machines + AllMachines(p.sites[k + 1..])
  {
    assert p.sites == p.sites[..k + 1] + p.sites[k + 1..];
    MachinesConcat(p.sites[..k + 1], p.sites[k + 1..]);
    assert p.sites[..k + 1][..k] == p.sites[..k];
  }

  lemma MiddleIsValid<U>(a: seq<U>, b: seq<U>, c: seq<U>, valid: U -> bool)
    requires AllValid(a + b + c, valid)
    ensures AllValid(b, valid)
  {
    assert forall i :: 0 <= i < |b| ==> (a + b + c)[|a| + i] == b[i];
  }

  lemma MiddleIsDistinct<U, K>(a: seq<U>, b: seq<U>, c: seq<U>, key: U -> K)
    requires Distinct(a + b + c, key)
    ensures Distinct(b, key) && forall m :: m in a ==> m !in b
  {
    var all := a + b + c;
    assert forall i :: 0 <= i < |b| ==> all[|a| + i] == b[i];
    assert forall i :: 0 <= i < |a| ==> all[i] == a[i];
    forall m | m in a
      ensures m !in b
    {
      var i :| 0 <= i < |a| && a[i] == m;
      forall j | 0 <= j < |b|
        ensures b[j] != m
      {
        assert key(all[i]) != key(all[|a| + j]);
      }
    }
  }

  lemma MiddleOk(x: D.Syntax, a: seq<Machine>, b: seq<Machine>, c: seq<Machine>)
    requires MachinesOk(x, a + b + c)
    ensures MachinesOk(x, b)
    ensures forall m :: m in b ==> m in a + b + c
    ensures forall m :: m in a ==> m !in b
  {
    MiddleIsValid(a, b, c, OkMachine(x));
    MiddleIsDistinct(a, b, c, MachineName);
    MiddleIsDistinct(a, b, c, MachineIp);
  }

  lemma {:induction false} InAllMachines(sites: seq<Site>, k: nat, m: Machine)
    requires k < |sites| && m in sites[k].machines
    ensures m in AllMachines(sites)
  {
    if k < |sites| - 1 {
      InAllMachines(sites[..|sites| - 1], k, m);
    }
  }

  lemma SiteMachinesOk(x: D.Syntax, p: Project, k: nat)
    requires ProjectOk(x, p) && k < |p.sites|
    ensures MachinesOk(x, p.sites[k].machines)
    ensures forall m :: m in p.sites[k].machines ==> m in AllMachines(p.sites)
    ensures forall m :: m in AllMachines(p.sites[..k]) ==> m !in p.sites[k].machines
  {
    SiteIsPart(x, p, k);
    MiddleOk(x, AllMachines(p.sites[..k]), p.sites[k].machines, AllMachines(p.sites[k + 1..]));
  }

  /** A machine of one site is in no other. */
  lemma MachinesHaveOneSite(x: D.Syntax, p: Project, k: nat, l: nat, m: Machine)
    requires ProjectOk(x, p) && k < l < |p.sites| && m in p.sites[k].machines
    ensures m !in p.sites[l].machines
  {
    InAllMachines(p.sites[..l], k, m);
    SiteMachinesOk(x, p, l);
  }

  /** Nodes of one site are told apart by route, and by machine and role. */
  ghost predicate ToldApart(nodes: seq<Node>) {
    && NoRepeats(nodes)
    && (forall n, n' :: n in nodes && n' in nodes && n.route == n'.route ==> n == n')
    && (forall n, n' :: n in nodes && n' in nodes && n.machine == n'.machine && n.standby == n'.standby ==> n == n')
  }

  lemma SiteNodesToldApart(x: D.Syntax, machines: seq<Machine>)
    requires MachinesOk(x, machines)
    ensures ToldApart(Nodes(machines))
  {
    var nodes := Nodes(machines);
    forall i | 0 <= i < |machines| {
      NodesOfOneDiffer(machines[i]);
    }
    NodesNoRepeats(machines);
    forall n, n' | n in nodes && n' in nodes
      ensures n.route == n'.route ==> n == n'
      ensures n.machine == n'.machine && n.standby == n'.standby ==> n == n'
    {
      NodesDiffer(x, machines, n, n');
    }
  }

  lemma RoutesExceptSelf(nodes: seq<Node>, self: Node)
    requires ToldApart(nodes) && self in nodes
    ensures var routes := RoutesFrom(nodes, self.machine, self.standby);
            && NoRepeats(routes) && self.route !in routes
            && (forall n :: n in nodes ==> (n.route in routes <==> n != self))
            && (forall r :: r in routes ==> exists n :: n in nodes && n.route == r)
  {
    RoutesNoRepeats(nodes, self.machine, self.standby);
    forall r {
      InRoutes(nodes, self.machine, self.standby, r);
    }
  }

  /**
   An instance routes to every other deployed instance of its site, each once, and to
   nothing else: never to itself.
   */
  lemma RoutesAreTheOthers(x: D.Syntax, p: Project, k: nat, self: Node)
    requires ProjectOk(x, p) && k < |p.sites| && self in SiteNodes(p, k)
    ensures NoRepeats(RoutesOf(p, k, self)) && self.route !in RoutesOf(p, k, self)
    ensures forall n :: n in SiteNodes(p, k) ==> (n.route in RoutesOf(p, k, self) <==> n != self)
    ensures forall r :: r in RoutesOf(p, k, self) ==> exists n :: n in SiteNodes(p, k) && n.route == r
  {
    SiteMachinesOk(x, p, k);
    SiteNodesToldApart(x, p.sites[k].machines);
    RoutesExceptSelf(SiteNodes(p, k), self);
  }

  /** Routes are mutual: of two instances of a site, each carries the other's. */
  lemma RoutesAreMutual(x: D.Syntax, p: Project, k: nat, n: Node, n': Node)
    requires ProjectOk(x, p) && k < |p.sites| && n in SiteNodes(p, k) && n' in SiteNodes(p, k) && n != n'
    ensures n'.route in RoutesOf(p, k, n) && n.route in RoutesOf(p, k, n')
  {
    RoutesAreTheOthers(x, p, k, n);
    RoutesAreTheOthers(x, p, k, n');
  }

  lemma NodesOfOtherSites(x: D.Syntax, p: Project, k: nat, n: Node, l: nat, n': Node)
    requires ProjectOk(x, p) && k < |p.sites| && l < |p.sites| && k != l
    requires n in SiteNodes(p, k) && n' in SiteNodes(p, l)
    ensures n.route != n'.route
  {
    InNodes(p.sites[k].machines, n);
    InNodes(p.sites[l].machines, n');
    var a :| a in p.sites[k].machines && n in NodesOf(a);
    var b :| b in p.sites[l].machines && n' in NodesOf(b);
    OtherSiteOtherIp(x, p, k, a, l, b);
    NodeIsItsMachines(a, n);
    NodeIsItsMachines(b, n');
  }

  lemma ClustersDiffer(sites: seq<Site>, k: nat, l: nat)
    requires Distinct(sites, ClusterName) && k < |sites| && l < |sites| && k != l
    ensures ClusterName(sites[k]) != ClusterName(sites[l])
  {
    assert ClusterName(sites[if k < l then k else l]) != ClusterName(sites[if k < l then l else k]);
  }

  /** No route leaves the site: no instance of another site is reached by one. */
  lemma RoutesStayInTheSite(x: D.Syntax, p: Project, k: nat, self: Node, l: nat, n: Node)
    requires ProjectOk(x, p) && k < |p.sites| && l < |p.sites| && l != k
    requires self in SiteNodes(p, k) && n in SiteNodes(p, l)
    ensures n.route !in RoutesOf(p, k, self) && ClusterName(p.sites[k]) != ClusterName(p.sites[l])
  {
    ClustersDiffer(p.sites, k, l);
    RoutesAreTheOthers(x, p, k, self);
    forall o | o in SiteNodes(p, k)
      ensures o.route != n.route
    {
      NodesOfOtherSites(x, p, k, o, l, n);
    }
  }

  lemma OtherSiteOtherIp(x: D.Syntax, p: Project, k: nat, a: Machine, l: nat, b: Machine)
    requires ProjectOk(x, p) && k < |p.sites| && l < |p.sites| && k != l
    requires a in p.sites[k].machines && b in p.sites[l].machines
    ensures a.ip != b.ip && a.name != b.name
  {
    SiteMachinesOk(x, p, k);
    SiteMachinesOk(x, p, l);
    if k < l {
      MachinesHaveOneSite(x, p, k, l, a);
    } else {
      MachinesHaveOneSite(x, p, l, k, b);
    }
    if a.ip == b.ip {
      SameMachine(AllMachines(p.sites), MachineIp, a, b);
    }
    if a.name == b.name {
      SameMachine(AllMachines(p.sites), MachineName, a, b);
    }
  }

  // ----- server names

  function Suffix(standby: bool): string {
    if standby then "-standby" else "-primary"
  }

  function ServerName(m: Machine, standby: bool): string {
    m.name + Suffix(standby)
  }

  lemma RoleEndsName(name: string, standby: bool, name': string, standby': bool)
    requires name + Suffix(standby) == name' + Suffix(standby')
    ensures name == name' && standby == standby'
  {
    var a, b := name + Suffix(standby), name' + Suffix(standby');
    assert a[|a| - 2] == (if standby then 'b' else 'r');
    assert b[|b| - 2] == (if standby' then 'b' else 'r');
    assert a[..|a| - 8] == name && b[..|b| - 8] == name';
  }

  /** A server name tells one instance of the whole project, whatever machines are called. */
  lemma ServerNamesDiffer(x: D.Syntax, p: Project, m: Machine, standby: bool, m': Machine, standby': bool)
    requires ProjectOk(x, p) && m in AllMachines(p.sites) && m' in AllMachines(p.sites)
    requires ServerName(m, standby) == ServerName(m', standby')
    ensures m == m' && standby == standby'
  {
    RoleEndsName(m.name, standby, m'.name, standby');
    SameMachine(AllMachines(p.sites), MachineName, m, m');
  }
}
