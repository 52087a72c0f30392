/** Concrete libraries and machines: the assumptions on text can be met, and what slips through does. */
module Examples {
  import opened Options
  import opened Registry
  import opened Text
  import opened Descriptor
  import B = BuilderValidation

  const Loopback: string := "127.0.0.1"
  const Ip: string := "10.0.0.1"

  function Duration(s: string): Option<int> {
    if s == "2s" then Some(2) else if s == "10s" then Some(10) else if s == "22s" then Some(22) else None
  }

  function Split(s: string): Option<HostPort> {
    if s == "127.0.0.1:1" then Some(HostPort(Loopback, 1))
    else if s == "10.0.0.1:2" then Some(HostPort(Ip, 2))
    else None
  }

  const Parsers: Syntax := Syntax(
    Duration, s => s == Ip || s == Loopback, s => s == Loopback, (s, t) => s == Ip && t == Ip, Split,
    s => s == "/", (_, _, _) => true, _ => None, _ => false, s => s)

  const Spaced: Deployable := Deployable(
    "p", "p", "e", "s", "\tm", "f", Ip,
    [Service("a", "master", Check("http", 80, "/", "10s", "2s", 1))],
    [SiteService("m", "f", "a", "master", ["primary"], "22s")],
    "store",
    Instance(Some("w"), "events", "state", "log", "127.0.0.1:1", "2s", "2s", Fabric("n", "c", "10.0.0.1:2", [])),
    None, None)

  lemma Unspaced(s: string)
    requires s != [] && !IsSpace(s[0]) && !IsSpace(s[|s| - 1])
    ensures s == Trim(s) && !Blank(s)
  {
  }

  lemma ParsersAreSane()
    ensures Sane(Parsers)
  {
    Unspaced("2s");
    Unspaced("10s");
    Unspaced("22s");
    Unspaced(Ip);
    Unspaced(Loopback);
    Unspaced("127.0.0.1:1");
    Unspaced("10.0.0.1:2");
  }

  lemma SpacedTrims()
    ensures Trim("\tm") == "m" && !Blank("\tm")
  {
    assert "\tm"[1..] == "m";
    assert TrimLeft("\tm") == TrimLeft("m");
    Unspaced("m");
  }

  lemma TextsAreUnspaced()
    ensures forall s :: s in ["p", "e", "s", "f", "a", "w", "n", "c", "store", "events", "state", "log", "master",
                              "2s", "10s", "22s", Ip, Loopback, "127.0.0.1:1", "10.0.0.1:2", "m"]
                        ==> s == Trim(s) && !Blank(s)
  {
    forall s | s in ["p", "e", "s", "f", "a", "w", "n", "c", "store", "events", "state", "log", "master",
                     "2s", "10s", "22s", Ip, Loopback, "127.0.0.1:1", "10.0.0.1:2", "m"] {
      Unspaced(s);
    }
  }

  lemma SpacedHasIdentity()
    ensures B.IdentityOk(Parsers, Spaced) && B.ServiceIdentitiesOk(Spaced)
  {
    TextsAreUnspaced();
    SpacedTrims();
  }

  lemma SpacedHostsItsService()
    ensures HostedOk(Parsers, Parsers.duration, Spaced.services)
    ensures InventoryOk(EntryOk(Parsers.duration), Spaced.siteServices)
  {
    Unspaced("a");
    Unspaced("m");
    Unspaced("f");
    Unspaced("2s");
    Unspaced("10s");
    Unspaced("22s");
    assert ServiceOk(Parsers, Parsers.duration, Spaced.services[0]);
    assert SiteServiceOk(Parsers.duration, Spaced.siteServices[0]);
  }

  lemma SpacedHalvesAgree()
    ensures HalvesAgree(Parsers, Spaced)
  {
    SpacedTrims();
    Unspaced("f");
    Unspaced("2s");
    Unspaced("10s");
    Unspaced("22s");
    assert Spaced.services[0] in Spaced.services && Spaced.siteServices[0] in Spaced.siteServices;
    assert Matches(Parsers, Spaced, Spaced.services[0], Spaced.siteServices[0]);
  }

  lemma SpacedInstanceIsComplete()
    ensures B.InstanceOk(Parsers, Ip, Spaced.primary)
  {
    Unspaced("events");
    Unspaced("state");
    Unspaced("log");
    Unspaced("2s");
    Unspaced("n");
    Unspaced("c");
    Unspaced(Ip);
    Unspaced(Loopback);
    Unspaced("127.0.0.1:1");
    Unspaced("10.0.0.1:2");
  }

  lemma SpacedPortsApart()
    ensures PortsApart(Parsers.split, Spaced)
  {
    assert Listeners(Spaced) == ["127.0.0.1:1", "10.0.0.1:2"];
  }

  lemma SpacedHasEndpoints()
    ensures B.EndpointsOk(Parsers, Spaced)
  {
    SpacedInstanceIsComplete();
    SpacedPortsApart();
  }

  lemma SpacedHasItsOwnFiles()
    ensures Distinct(B.Files(Spaced), Parsers.pathKey)
  {
    assert B.Files(Spaced) == ["store", "events", "state", "log"];
    assert "store"[0] != "events"[0] && "state"[2] != "store"[2] && "log"[0] != "state"[0];
  }

  /** The condition on machine names is needed: this one passes everything, and its own reports find no slot. */
  lemma WhiteSpaceIsAccepted()
    ensures Sane(Parsers) && B.Accepts(Parsers, Spaced)
    ensures Spaced.machine != Trim(Spaced.machine)
  {
    ParsersAreSane();
    SpacedTrims();
    SpacedHasIdentity();
    SpacedHostsItsService();
    SpacedHalvesAgree();
    SpacedHasEndpoints();
    SpacedHasItsOwnFiles();
  }

  // ----- libraries that read back what they write

  function Marks(n: nat): string {
    seq(n, _ => 'x')
  }

  function Unmark(s: string): Option<int> {
    if s != "" && s == Marks(|s|) && |s| <= MAX_DURATION then Some(|s|) else None
  }

  function Address(ip: string, port: int): string {
    Loopback + Marks(if port < 0 then 0 else port)
  }

  function Unaddress(s: string): Option<HostPort> {
    if |s| > 9 && s == Loopback + Marks(|s| - 9) then Some(HostPort(Loopback, |s| - 9)) else None
  }

  const Mirror: Syntax := Syntax(
    Unmark, s => s == Loopback, s => s == Loopback, (s, t) => s == Loopback && t == Loopback, Unaddress,
    s => s == "/", (_, _, _) => true, s => if Unaddress(s).Some? then Some(s) else None, _ => true, s => s)

  const Scribe: Writer := Writer(Address, Address, n => Marks(if n < 0 then 0 else n))

  /** Durations as tallies, and one address: enough to meet every assumption at once. */
  lemma AssumptionsCanBeMet()
    ensures Sane(Mirror) && RoundTrips(Mirror, Scribe)
  {
    Unspaced(Loopback);
    forall s | Unmark(s).Some?
      ensures s == Trim(s)
    {
      Unspaced(s);
    }
    forall s | Unaddress(s).Some?
      ensures s == Trim(s)
    {
      Unspaced(s);
    }
    forall ip, port: int | ip == Loopback && PortOk(port)
      ensures Unaddress(Address(ip, port)) == Some(HostPort(ip, port))
    {
      assert |Address(ip, port)| == 9 + port;
    }
    forall d: int | 0 < d <= MAX_DURATION
      ensures Unmark(Marks(d)) == Some(d)
    {
      assert |Marks(d)| == d;
    }
  }
}
