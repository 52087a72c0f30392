/** What keeps a process from starting, by meaning, and how little of it is left open once a descriptor decodes. */
module Startable {
  import opened Options
  import opened Registry
  import opened Text
  import opened Descriptor
  import opened WellFormed
  import V = PlatformValidation
  import P = PlatformStartup

  // ----- each check, by meaning

  /** The probe of a service runs: it has a name, asks an address of this machine, and gives up before it asks again. */
  predicate RunsProbe(x: Syntax, ip: string, s: Service) {
    var c := s.check;
    var interval, timeout := x.duration(Trim(c.interval)), x.duration(Trim(c.timeout));
    && Trim(s.name) != "" && c.kind == "http" && x.ip(Trim(ip)) && x.composes(Trim(ip), c.port, c.path)
    && interval.Some? && timeout.Some? && 0 < timeout.value < interval.value && c.retries > 0
  }

  lemma ProbeMeans(x: Syntax, ip: string, s: Service)
    ensures P.Probed(x, ip, s) <==> RunsProbe(x, ip, s)
    ensures P.Probed(x, ip, s) ==>
              var t := P.TargetOf(x, ip, s).value;
              && t.service == s.name && t.role == s.role && t.ip == Trim(ip)
              && t.port == s.check.port && t.path == s.check.path && t.retries == s.check.retries
              && x.duration(Trim(s.check.interval)) == Some(t.interval)
              && x.duration(Trim(s.check.timeout)) == Some(t.timeout)
  {
  }

  /** A unit a view can hold: everything named, observers named and told apart, reports that last. */
  predicate HasSlot(x: Syntax, u: SiteService) {
    && Trim(u.machine) != "" && Trim(u.service) != "" && Trim(u.profile) != "" && Trim(u.role) != ""
    && u.observers != [] && (forall r :: r in u.observers ==> Trim(r) != "" && Trim(r) == r)
    && (forall i, j :: 0 <= i < j < |u.observers| ==> u.observers[i] != u.observers[j])
    && x.duration(Trim(u.freshFor)).Some? && x.duration(Trim(u.freshFor)).value > 0
  }

  lemma SlotMeans(x: Syntax, u: SiteService)
    ensures P.Viewed(x, u) <==> HasSlot(x, u)
    ensures P.Viewed(x, u) ==>
              var unit := P.UnitFrom(x, u).value;
              && unit.key.machine == u.machine && unit.key.service == u.service && unit.profile == u.profile
              && unit.serviceRole == u.role && unit.observers == u.observers
              && x.duration(Trim(u.freshFor)) == Some(unit.freshFor)
  {
    assert forall i :: 0 <= i < |u.observers| ==> u.observers[i] in u.observers;
  }

  /** An instance that opens its files, serves within its timeouts and joins its cluster. */
  ghost predicate ComesUp(x: Syntax, i: Instance) {
    var cluster := x.split(Trim(i.fabric.clusterAddress));
    && Trim(i.logFile) != "" && Trim(i.eventsFile) != "" && Trim(i.stateFile) != ""
    && x.duration(Trim(i.readHeaderTimeout)).Some? && x.duration(Trim(i.readHeaderTimeout)).value > 0
    && x.duration(Trim(i.shutdownTimeout)).Some? && x.duration(Trim(i.shutdownTimeout)).value > 0
    && cluster.Some? && x.ip(cluster.value.host) && 0 < cluster.value.port < 65536
    && Trim(i.fabric.serverName) != "" && Trim(i.fabric.clusterName) != ""
    && (forall r :: r in i.fabric.routes ==> x.dials(r))
  }

  /** No lease, one on no file, or one that can be kept: its timings last and renewal comes before expiry. */
  predicate LeaseOpens(x: Syntax, d: Deployable) {
    d.lease.Some? ==>
      var l := d.lease.value;
      && V.LeaseParses(x, l)
      && (l.file == ""
          || (&& 0 < x.duration(l.renewal).value < x.duration(l.duration).value
              && x.duration(l.healthCheck).value > 0))
  }

  /** The deployment, the machine and its shared store are named. */
  predicate NamesItself(d: Deployable) {
    && Trim(d.project) != "" && Trim(d.environment) != "" && Trim(d.site) != ""
    && Trim(d.machine) != "" && d.profile != "" && Trim(d.machineEventsFile) != ""
  }

  lemma InstanceComesUp(x: Syntax, i: Instance)
    ensures ComesUp(x, i) <==> P.FilesNamed(i) && P.TimeoutsLoad(x, i) && P.FabricStarts(x, i.fabric)
  {
  }

  lemma InstancesComeUp(x: Syntax, d: Deployable)
    ensures P.Opens(d) && P.Loads(x, d) && P.FabricsStart(x, d)
            <==> (forall i :: Deployed(d, i) ==> ComesUp(x, i))
                 && Trim(d.machineEventsFile) != "" && d.machine != "" && d.profile != ""
  {
    assert (forall i :: Deployed(d, i) ==> ComesUp(x, i))
           <==> ComesUp(x, d.primary) && (d.standby.Some? ==> ComesUp(x, d.standby.value));
    InstanceComesUp(x, d.primary);
    if d.standby.Some? {
      InstanceComesUp(x, d.standby.value);
    }
  }

  lemma LeaseMeans(x: Syntax, d: Deployable)
    ensures P.LeaseConfigOf(x, d).Some? && !P.OpenLease(P.LeaseConfigOf(x, d).value).Refused? <==> LeaseOpens(x, d)
  {
  }

  /** What a process starts on, by meaning. */
  ghost predicate Startables(x: Syntax, d: Deployable) {
    && (forall i :: Deployed(d, i) ==> ComesUp(x, i))
    && NamesItself(d) && LeaseOpens(x, d)
    && (forall u :: u in d.siteServices ==> HasSlot(x, u))
    && Singly(d.siteServices, (u: SiteService) => (u.machine, u.service))
    && (forall s :: s in d.services ==> RunsProbe(x, d.ip, s))
    && Singly(d.services, (s: Service) => s.name)
  }

  lemma ViewMeans(x: Syntax, d: Deployable)
    ensures P.ViewStarts(x, d)
            <==> && Trim(d.project) != "" && Trim(d.environment) != "" && Trim(d.site) != ""
                 && (forall u :: u in d.siteServices ==> HasSlot(x, u))
                 && Singly(d.siteServices, (u: SiteService) => (u.machine, u.service))
  {
    forall u {
      SlotMeans(x, u);
    }
    assert AllValid(d.siteServices, (u: SiteService) => P.Viewed(x, u))
           <==> forall u :: u in d.siteServices ==> HasSlot(x, u);
    SinglyMeans(d.siteServices, UnitOf, (u: SiteService) => (u.machine, u.service));
  }

  lemma MonitorMeans(x: Syntax, d: Deployable)
    ensures P.MonitorStarts(x, d)
            <==> && (forall s :: s in d.services ==> RunsProbe(x, d.ip, s))
                 && Singly(d.services, (s: Service) => s.name)
  {
    forall s {
      ProbeMeans(x, d.ip, s);
    }
    assert AllValid(d.services, (s: Service) => P.Probed(x, d.ip, s))
           <==> forall s :: s in d.services ==> RunsProbe(x, d.ip, s);
    SinglyMeans(d.services, NameOf, (s: Service) => s.name);
  }

  lemma BlankIsEmpty()
    ensures Trim("") == ""
  {
  }

  /** A process starts exactly on what is startable by meaning. */
  lemma StartsExactlyWhen(x: Syntax, d: Deployable)
    ensures P.Starts(x, d) <==> Startables(x, d)
  {
    InstancesComeUp(x, d);
    LeaseMeans(x, d);
    ViewMeans(x, d);
    MonitorMeans(x, d);
    if Trim(d.machine) != "" {
      NameIsThere(d.machine);
    }
  }

  lemma NameIsThere(s: string)
    requires Trim(s) != ""
    ensures s != ""
  {
  }

  // ----- what decoding leaves open

  lemma DecodedUnitsHaveSlots(x: Syntax, units: seq<SiteService>)
    requires ListsWell((s: string) => x.duration(Trim(s)), units)
    ensures (forall u :: u in units ==> HasSlot(x, u)) && Singly(units, (u: SiteService) => (u.machine, u.service))
  {
    forall u | u in units
      ensures HasSlot(x, u)
    {
      var i :| 0 <= i < |units| && units[i] == u;
      assert UnitWell((s: string) => x.duration(Trim(s)), units[i]);
      WellHasSlot(x, units[i]);
    }
  }

  lemma WellHasSlot(x: Syntax, u: SiteService)
    requires UnitWell((s: string) => x.duration(Trim(s)), u)
    ensures HasSlot(x, u)
  {
    BlankIsEmpty();
    RolesAreTrimmed();
  }

  lemma RolesAreTrimmed()
    ensures Trim("primary") == "primary" && Trim("standby") == "standby"
    ensures Trim("master") == "master" && Trim("slave") == "slave"
  {
  }

  lemma DecodedProbesRun(x: Syntax, ip: string, services: seq<Service>)
    requires HostsWell(x, (s: string) => x.duration(Trim(s)), services)
    ensures (forall s :: s in services ==> RunsProbe(x, ip, s))
            <==> forall s :: s in services ==> x.ip(Trim(ip)) && x.composes(Trim(ip), s.check.port, s.check.path)
    ensures Singly(services, (s: Service) => s.name)
  {
    forall s | s in services
      ensures RunsProbe(x, ip, s) <==> x.ip(Trim(ip)) && x.composes(Trim(ip), s.check.port, s.check.path)
    {
      var i :| 0 <= i < |services| && services[i] == s;
      assert Named(services[i].name) && Probeable(x, (t: string) => x.duration(Trim(t)), services[i].check);
    }
  }

  /**
   Of a descriptor that decodes, view and monitor leave nothing to ask of its services and
   units: it starts exactly when its instances come up, the deployment is named, the lease
   can be kept, and its ip joins each probe into an address.
   */
  lemma DecodedStartsExactlyWhen(x: Syntax, d: Deployable)
    requires V.Decodes(x, d)
    ensures P.Starts(x, d)
            <==> && (forall i :: Deployed(d, i) ==> ComesUp(x, i))
                 && NamesItself(d) && LeaseOpens(x, d)
                 && (forall s :: s in d.services ==>
                       x.ip(Trim(d.ip)) && x.composes(Trim(d.ip), s.check.port, s.check.path))
  {
    DecodesExactlyWhen(x, d);
    StartsExactlyWhen(x, d);
    DecodedUnitsHaveSlots(x, d.siteServices);
    DecodedProbesRun(x, d.ip, d.services);
  }
}
