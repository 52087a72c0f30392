/** From a worker's clock to a peer's snapshot: a view that hears all of a worker's reports never shows it stale. */
module WatchedUnits {
  import opened Options
  import opened HealthView
  import opened Convergence
  import opened Monitoring
  import opened Snapshots

  /** The delivery is of a report for this slot. */
  ghost predicate ForSlot(units: Inventory, d: Delivery, key: UnitKey, role: string) {
    d.o.unit == key && d.o.role == role && Placeable(units, d.o)
  }

  /** One worker's reports for one slot: the stamp of each, and when it first reached this view. */
  datatype Worker = Worker(key: UnitKey, role: string, epoch: nat, stamps: seq<nat>, arrivals: Arrivals)

  /** The delivery is of report k of the worker. */
  ghost predicate Brings(w: Worker, d: Delivery, k: nat) {
    && k < |w.arrivals| == |w.stamps| && d.o.epoch == w.epoch && d.o.sequence == w.stamps[k]
    && w.arrivals[k].Some? && w.arrivals[k].value <= d.at
  }

  /**
   By now a view has taken, for this slot, every report of the worker that has arrived and
   none that has not. which[i] is the report delivery i is of, and first[k] the delivery
   that brought report k at its instant, before any repetition.
   */
  ghost predicate Hears(units: Inventory, ds: seq<Delivery>, w: Worker, which: seq<nat>, first: seq<nat>, now: int) {
    && |which| == |ds| && |first| == |w.stamps| == |w.arrivals|
    && (forall j, k :: 0 <= j < k < |w.stamps| ==> w.stamps[j] < w.stamps[k])
    && (forall i :: 0 <= i < |ds| ==> ds[i].at <= now)
    && (forall i {:trigger which[i]} :: 0 <= i < |ds| && ForSlot(units, ds[i], w.key, w.role) ==>
          && Brings(w, ds[i], which[i]) && first[which[i]] <= i
          && FirstOf(units, ds, w, first, which[i]))
    && (forall k {:trigger first[k]} :: 0 <= k < |w.arrivals| && w.arrivals[k].Some? && w.arrivals[k].value < now ==>
          FirstOf(units, ds, w, first, k))
  }

  ghost predicate FirstOf(units: Inventory, ds: seq<Delivery>, w: Worker, first: seq<nat>, k: nat) {
    && k < |first| && first[k] < |ds| && ForSlot(units, ds[first[k]], w.key, w.role)
    && Brings(w, ds[first[k]], k) && ds[first[k]].at == w.arrivals[k].value
  }

  lemma NewestIsFirst(units: Inventory, ds: seq<Delivery>, w: Worker, which: seq<nat>, first: seq<nat>, now: int,
                      i: nat)
    requires Hears(units, ds, w, which, first, now) && NewestAt(units, ds, w.key, w.role, i)
    ensures Brings(w, ds[i], which[i]) && ds[i].at == w.arrivals[which[i]].value
  {
    assert ForSlot(units, ds[i], w.key, w.role);
    NoneAsNewBefore(units, ds, w, first[which[i]], i);
  }

  lemma NoneAsNewBefore(units: Inventory, ds: seq<Delivery>, w: Worker, j: nat, i: nat)
    requires NewestAt(units, ds, w.key, w.role, i)
    requires j < |ds| && ForSlot(units, ds[j], w.key, w.role) && !OlderThan(ds[j].o, ds[i].o)
    ensures j >= i
  {
  }

  lemma LaterWouldBeHeld(units: Inventory, ds: seq<Delivery>, w: Worker, which: seq<nat>, first: seq<nat>, now: int,
                         i: nat, j: nat)
    requires Hears(units, ds, w, which, first, now) && NewestAt(units, ds, w.key, w.role, i)
    requires Brings(w, ds[i], which[i]) && which[i] < j < |w.arrivals| && w.arrivals[j].Some?
    ensures now <= w.arrivals[j].value
  {
    assert w.arrivals[j].value < now ==> FirstOf(units, ds, w, first, j);
  }

  /** What the slot holds is the latest report that arrived, dated to its arrival. */
  lemma HoldsTheLatest(units: Inventory, ds: seq<Delivery>, w: Worker, which: seq<nat>, first: seq<nat>, now: int,
                       i: nat)
    requires Hears(units, ds, w, which, first, now) && NewestAt(units, ds, w.key, w.role, i)
    ensures Holding(w.arrivals, now, which[i]) && ds[i].at == w.arrivals[which[i]].value
  {
    NewestIsFirst(units, ds, w, which, first, now, i);
    forall j: nat | which[i] < j < |w.arrivals| && w.arrivals[j].Some?
      ensures now <= w.arrivals[j].value
    {
      LaterWouldBeHeld(units, ds, w, which, first, now, i, j);
    }
  }

  /**
   A worker that runs and loses nothing is never shown stale: whatever the view's history,
   if it hears every report at most one interval after it was made and another is still to
   come, the role is not in the unit's stale list.
   */
  lemma WatchedUnitIsNeverStale(p: Policy, attempts: seq<Attempt>, start: int, delay: int, units: Inventory,
                                ds: seq<Delivery>, u: Unit, w: Worker, which: seq<nat>, first: seq<nat>, now: int)
    requires Runs(p, attempts) && DerivedFrom(u, p) && Lossless(p, attempts, start, w.arrivals, delay)
    requires delay <= p.interval && w.key == u.key && Hears(units, ds, w, which, first, now)
    requires |w.arrivals| > 0 && now < w.arrivals[|w.arrivals| - 1].value
    ensures w.role !in Rendered(Folded(units, ds).slots, u, now).stale
  {
    var i := SnapshotMeans(units, ds, u, now, w.role);
    if Snapshots.Received(units, ds, u.key, w.role) {
      HoldsTheLatest(units, ds, w, which, first, now, i);
      NotYetOld(p, attempts, start, w.arrivals, delay, u, now, which[i]);
    }
  }

  lemma NotYetOld(p: Policy, attempts: seq<Attempt>, start: int, arrivals: Arrivals, delay: int, u: Unit, now: int,
                  k: nat)
    requires Runs(p, attempts) && DerivedFrom(u, p) && Lossless(p, attempts, start, arrivals, delay)
    requires delay <= p.interval && Holding(arrivals, now, k) && now < arrivals[|arrivals| - 1].value
    ensures now - arrivals[k].value <= u.freshFor
  {
    LosslessIsNeverStale(p, attempts, start, arrivals, delay, u, now, k);
    StaleMeansOld(u, arrivals, now, k);
  }

  /** And once nothing more is heard of it, it is shown stale as soon as its freshness is over. */
  lemma SilenceIsShown(units: Inventory, ds: seq<Delivery>, u: Unit, role: string, now: int, i: nat)
    requires role in u.observers && NewestAt(units, ds, u.key, role, i) && now > ds[i].at + u.freshFor
    ensures role in Rendered(Folded(units, ds).slots, u, now).stale
  {
    assert Snapshots.Received(units, ds, u.key, role);
    var n := SnapshotMeans(units, ds, u, now, role);
    NewestIsOne(units, ds, u.key, role, i, n);
  }

  lemma NewestIsOne(units: Inventory, ds: seq<Delivery>, key: UnitKey, role: string, i: nat, j: nat)
    requires NewestAt(units, ds, key, role, i) && NewestAt(units, ds, key, role, j)
    ensures i == j
  {
  }
}
