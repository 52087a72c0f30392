/**
 The publisher of one instance's observations. Workers hand observations over under a
 lock, keeping only the latest of each service; one goroutine, woken by a single token,
 takes the whole map and sends it. The protocol below interleaves any number of workers
 with the sender at the granularity of the lock.
 */
module HealthFabric {
  import opened Sorting
  import opened HealthView

  datatype Identity = Identity(machine: string, role: string, epoch: nat)

  /** The fields the lock guards. */
  datatype Ledger = Ledger(
    pending: map<string, Observation>, sequence: nat, sent: nat, superseded: nat, failed: nat)

  /** Observations are kept under their own service's name. */
  ghost predicate Keyed(pending: map<string, Observation>) {
    forall s :: s in pending ==> pending[s].unit.service == s
  }

  const EMPTY := Ledger(map[], 0, 0, 0, 0)

  function Stamped(id: Identity, o: Observation, sequence: nat): Observation {
    o.(unit := UnitKey(id.machine, o.unit.service), role := id.role, epoch := id.epoch, sequence := sequence)
  }

  /** The locked section of Publish. */
  function Accepted(id: Identity, l: Ledger, o: Observation): Ledger {
    var stamped := Stamped(id, o, l.sequence + 1);
    var service := stamped.unit.service;
    l.(sequence := l.sequence + 1,
       superseded := l.superseded + (if service in l.pending then 1 else 0),
       pending := l.pending[service := stamped])
  }

  /** A batch in the order it is sent: every pending observation once, by service name. */
  ghost predicate Arranges(batch: seq<Observation>, pending: map<string, Observation>) {
    && (forall i :: 0 <= i < |batch| ==>
          batch[i].unit.service in pending && pending[batch[i].unit.service] == batch[i])
    && (forall s :: s in pending ==> exists i :: 0 <= i < |batch| && batch[i].unit.service == s)
    && (forall i, j :: 0 <= i < j < |batch| ==>
          batch[i].unit.service != batch[j].unit.service
          && StringLeq(batch[i].unit.service, batch[j].unit.service))
  }

  // ----- the publisher, in place

  class Publisher {
    const id: Identity
    var pending: map<string, Observation>
    var sequence: nat
    var sent: nat
    var superseded: nat
    var failed: nat
    var wake: bool

    function State(): Ledger
      reads this
    {
      Ledger(pending, sequence, sent, superseded, failed)
    }

    constructor (id: Identity)
      ensures this.id == id && State() == EMPTY && !wake
    {
      this.id := id;
      pending, sequence, sent, superseded, failed, wake := map[], 0, 0, 0, 0, false;
    }

    /** Accepts one observation and returns it as stamped; the token is posted if none is there. */
    method Publish(o: Observation) returns (stamped: Observation)
      requires Keyed(pending)
      modifies this
      ensures Keyed(pending)
      ensures State() == Accepted(id, old(State()), o) && wake
      ensures stamped == Stamped(id, o, old(sequence) + 1) && pending[o.unit.service] == stamped
    {
      sequence := sequence + 1;
      stamped := o.(unit := UnitKey(id.machine, o.unit.service), role := id.role,
                    epoch := id.epoch, sequence := sequence);
      if stamped.unit.service in pending {
        superseded := superseded + 1;
      }
      pending := pending[stamped.unit.service := stamped];
      wake := true;
    }

    /** Sends everything pending; refused tells which sends the connection or the encoder refuses. */
    method Drain(refused: set<string>) returns (batch: seq<Observation>)
      requires Keyed(pending)
      modifies this
      ensures Arranges(batch, old(pending))
      ensures pending == map[] && sequence == old(sequence) && superseded == old(superseded) && wake == old(wake)
      ensures sent == old(sent) + CountSent(batch, refused)
      ensures failed == old(failed) + |batch| - CountSent(batch, refused)
    {
      var taken := pending;
      pending := map[];
      batch := ByService(taken);
      for i := 0 to |batch|
        invariant sent == old(sent) + CountSent(batch[..i], refused)
        invariant failed == old(failed) + i - CountSent(batch[..i], refused)
        invariant pending == map[] && sequence == old(sequence) && superseded == old(superseded) && wake == old(wake)
      {
        assert batch[..i + 1][..i] == batch[..i];
        if batch[i].unit.service in refused {
          failed := failed + 1;
        } else {
          sent := sent + 1;
        }
      }
      assert batch[..|batch|] == batch;
    }
  }

  function CountSent(batch: seq<Observation>, refused: set<string>): (n: nat)
    ensures n <= |batch|
  {
    if batch == [] then 0
    else
      CountSent(batch[..|batch| - 1], refused)
      + (if batch[|batch| - 1].unit.service in refused then 0 else 1)
  }

  /** A batch is what was pending, each once, in ascending order of service. */
  lemma BatchMeans(batch: seq<Observation>, pending: map<string, Observation>)
    requires Arranges(batch, pending)
    ensures forall o :: o in batch <==> o.unit.service in pending && pending[o.unit.service] == o
    ensures forall i, j :: 0 <= i < j < |batch| ==>
              batch[i].unit.service != batch[j].unit.service && StringLeq(batch[i].unit.service, batch[j].unit.service)
  {
    forall o: Observation | o.unit.service in pending && pending[o.unit.service] == o
      ensures o in batch
    {
      var i :| 0 <= i < |batch| && batch[i].unit.service == o.unit.service;
    }
  }

  /** The service names of a batch, in the order slices.Sorted gives them. */
  method SortedNames(names: set<string>) returns (sorted: seq<string>)
    ensures Sorted(sorted, StringLeq) && NoRepeats(sorted)
    ensures forall s :: s in sorted <==> s in names
  {
    var listed: seq<string>, left := [], names;
    while left != {}
      invariant left <= names
      invariant forall s :: s in listed <==> s in names - left
      invariant NoRepeats(listed)
      decreases left
    {
      var s :| s in left;
      assert s !in listed;
      left := left - {s};
      listed := listed + [s];
    }
    StringOrder();
    SortSorts(listed, StringLeq);
    SortKeepsElements(listed, StringLeq);
    sorted := Sort(listed, StringLeq);
  }

  /** The observations of a taken map, ordered by service name. */
  method ByService(taken: map<string, Observation>) returns (batch: seq<Observation>)
    requires Keyed(taken)
    ensures Arranges(batch, taken)
  {
    var names := SortedNames(taken.Keys);
    batch := [];
    for i := 0 to |names|
      invariant |batch| == i
      invariant forall j :: 0 <= j < i ==> names[j] in taken && batch[j] == taken[names[j]]
    {
      assert names[i] in names;
      batch := batch + [taken[names[i]]];
    }
    forall s | s in taken
      ensures exists i :: 0 <= i < |batch| && batch[i].unit.service == s
    {
      var i :| 0 <= i < |names| && names[i] == s;
      assert batch[i].unit.service == s;
    }
  }
}
