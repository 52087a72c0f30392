/**
 What a view makes of a whole history of deliveries. The wire may lose, repeat and
 reorder reports; the slots depend only on which reports arrived.
 */
module Convergence {
  import opened Options
  import opened Sorting
  import opened HealthView

  /** One report reaching one receiver, at an instant of the receiver's own clock. */
  datatype Delivery = Delivery(o: Observation, at: int)

  /** A view's books after a history of deliveries. */
  function Folded(units: Inventory, ds: seq<Delivery>): Books {
    if ds == [] then Books(map[], map[])
    else
      var d := ds[|ds| - 1];
      Applied(units, Folded(units, ds[..|ds| - 1]), d.o, d.at)
  }

  function SlotAfter(units: Inventory, ds: seq<Delivery>, key: UnitKey, role: string): Option<Report> {
    SlotOf(Folded(units, ds).slots, key, role)
  }

  /** The report belongs in this slot. */
  predicate For(units: Inventory, o: Observation, key: UnitKey, role: string) {
    Placeable(units, o) && o.unit == key && o.role == role
  }

  predicate OlderThan(a: Observation, b: Observation) {
    Older(a.epoch, a.sequence, b.epoch, b.sequence)
  }

  /** ds[i] is the newest report for the slot, and the first of that stamp to arrive. */
  ghost predicate NewestAt(units: Inventory, ds: seq<Delivery>, key: UnitKey, role: string, i: nat) {
    && i < |ds| && For(units, ds[i].o, key, role)
    && (forall j :: 0 <= j < |ds| && For(units, ds[j].o, key, role) ==> !OlderThan(ds[i].o, ds[j].o))
    && (forall j :: 0 <= j < i && For(units, ds[j].o, key, role) ==> OlderThan(ds[j].o, ds[i].o))
  }

  /** A report that is kept is newer than all before it. */
  lemma KeptIsNewest(units: Inventory, ds: seq<Delivery>, key: UnitKey, role: string, i: nat)
    requires ds != []
    requires var before, d := ds[..|ds| - 1], ds[|ds| - 1];
             && Judge(units, Folded(units, before).slots, d.o) == Kept && d.o.unit == key && d.o.role == role
             && (SlotAfter(units, before, key, role).None? ==>
                   forall j :: 0 <= j < |before| ==> !For(units, before[j].o, key, role))
             && (SlotAfter(units, before, key, role).Some? ==>
                   && NewestAt(units, before, key, role, i)
                   && SlotAfter(units, before, key, role) == Some(ReportOf(before[i].o, before[i].at)))
    ensures NewestAt(units, ds, key, role, |ds| - 1)
    ensures SlotAfter(units, ds, key, role) == Some(ReportOf(ds[|ds| - 1].o, ds[|ds| - 1].at))
  {
    var n := |ds| - 1;
    assert forall j :: 0 <= j < n ==> ds[..n][j] == ds[j];
    assert forall j :: 0 <= j < n && For(units, ds[j].o, key, role) ==> OlderThan(ds[j].o, ds[n].o);
  }

  /** A delivery that is dropped, or is about something else, leaves the slot. */
  lemma OthersLeaveTheSlot(units: Inventory, ds: seq<Delivery>, key: UnitKey, role: string)
    requires ds != []
    requires var o := ds[|ds| - 1].o;
             Judge(units, Folded(units, ds[..|ds| - 1]).slots, o) != Kept || o.unit != key || o.role != role
    ensures SlotAfter(units, ds, key, role) == SlotAfter(units, ds[..|ds| - 1], key, role)
  {
  }

  /**
   A slot holds exactly the newest report delivered for it, as it first arrived: a late
   or repeated report neither replaces it nor refreshes the instant it was received.
   The slot is empty only if nothing placeable was ever delivered for it.
   */
  lemma {:induction false} SlotHoldsTheNewest(units: Inventory, ds: seq<Delivery>, key: UnitKey, role: string)
    returns (i: nat)
    ensures SlotAfter(units, ds, key, role).None? <==>
              (forall j :: 0 <= j < |ds| ==> !For(units, ds[j].o, key, role))
    ensures SlotAfter(units, ds, key, role).Some? ==>
              NewestAt(units, ds, key, role, i)
              && SlotAfter(units, ds, key, role) == Some(ReportOf(ds[i].o, ds[i].at))
  {
    i := 0;
    if ds != [] {
      var n := |ds| - 1;
      var before := ds[..n];
      i := SlotHoldsTheNewest(units, before, key, role);
      var b := Folded(units, before);
      var o := ds[n].o;
      assert forall j :: 0 <= j < n ==> before[j] == ds[j];
      if Judge(units, b.slots, o) == Kept && o.unit == key && o.role == role {
        KeptIsNewest(units, ds, key, role, i);
        i := n;
      } else {
        OthersLeaveTheSlot(units, ds, key, role);
        if For(units, o, key, role) {
          assert !OlderThan(ds[i].o, o);
        }
      }
    }
  }

  /**
   A view keeps a report exactly when the inventory has a slot for it and everything it
   already received for that slot is older.
   */
  lemma {:induction false} KeptExactlyWhenNewer(units: Inventory, ds: seq<Delivery>, o: Observation)
    ensures Judge(units, Folded(units, ds).slots, o) == Kept
       <==> Placeable(units, o)
            && forall j :: 0 <= j < |ds| && For(units, ds[j].o, o.unit, o.role) ==> OlderThan(ds[j].o, o)
  {
    var i := SlotHoldsTheNewest(units, ds, o.unit, o.role);
    if Placeable(units, o) && SlotAfter(units, ds, o.unit, o.role).Some? {
      assert For(units, ds[i].o, o.unit, o.role);
    }
  }

  /** A report whose stamp says it all: no two reports of the history share a stamp and differ. */
  ghost predicate Genuine(ds: seq<Delivery>) {
    forall i, j :: 0 <= i < |ds| && 0 <= j < |ds|
                   && ds[i].o.unit == ds[j].o.unit && ds[i].o.role == ds[j].o.role
                   && ds[i].o.epoch == ds[j].o.epoch && ds[i].o.sequence == ds[j].o.sequence
                   ==> ds[i].o == ds[j].o
  }

  ghost predicate Delivers(units: Inventory, ds: seq<Delivery>, key: UnitKey, role: string, o: Observation) {
    For(units, o, key, role) && exists i :: 0 <= i < |ds| && ds[i].o == o
  }

  /** The slot's content, without the receiver's own clock reading. */
  datatype Said = Said(epoch: nat, sequence: nat, status: Status, detail: Detail)

  function SaidOf(slot: Option<Report>): Option<Said> {
    if slot.None? then None
    else Some(Said(slot.value.epoch, slot.value.sequence, slot.value.status, slot.value.detail))
  }

  /**
   Convergence. Two views of one inventory that received the same genuine reports for a
   slot, in any order and however often each, hold the same content in it.
   */
  lemma ViewsConverge(units: Inventory, ds: seq<Delivery>, ds': seq<Delivery>, key: UnitKey, role: string)
    requires Genuine(ds)
    requires forall o :: Delivers(units, ds, key, role, o) <==> Delivers(units, ds', key, role, o)
    ensures SaidOf(SlotAfter(units, ds, key, role)) == SaidOf(SlotAfter(units, ds', key, role))
  {
    var i := SlotHoldsTheNewest(units, ds, key, role);
    var i' := SlotHoldsTheNewest(units, ds', key, role);
    if SlotAfter(units, ds, key, role).Some? {
      assert Delivers(units, ds, key, role, ds[i].o);
      var k :| 0 <= k < |ds'| && ds'[k].o == ds[i].o;
      assert Delivers(units, ds', key, role, ds'[i'].o);
      var k' :| 0 <= k' < |ds| && ds[k'].o == ds'[i'].o;
      assert !OlderThan(ds[i].o, ds[k'].o) && !OlderThan(ds'[i'].o, ds'[k].o);
    } else if SlotAfter(units, ds', key, role).Some? {
      assert Delivers(units, ds', key, role, ds'[i'].o);
    }
  }

  /** Every report is either kept or counted under exactly one reason. */
  function Tally(drops: Drops): nat {
    Count(drops, UnknownTarget) + Count(drops, UnknownObserver) + Count(drops, UnusableStatus)
    + Count(drops, Duplicate) + Count(drops, Stale)
  }

  function KeptOf(units: Inventory, ds: seq<Delivery>): nat {
    if ds == [] then 0
    else
      var before := ds[..|ds| - 1];
      KeptOf(units, before)
      + (if Judge(units, Folded(units, before).slots, ds[|ds| - 1].o) == Kept then 1 else 0)
  }

  lemma CountedOnce(drops: Drops, reason: Reason)
    requires reason != Kept
    ensures Tally(drops[reason := Count(drops, reason) + 1]) == Tally(drops) + 1
  {
    var after := drops[reason := Count(drops, reason) + 1];
    assert forall r: Reason :: Count(after, r) == Count(drops, r) + (if r == reason then 1 else 0);
  }

  lemma {:induction false} NothingGoesUncounted(units: Inventory, ds: seq<Delivery>)
    ensures KeptOf(units, ds) + Tally(Folded(units, ds).drops) == |ds|
    ensures Kept !in Folded(units, ds).drops
  {
    if ds != [] {
      var b := Folded(units, ds[..|ds| - 1]);
      NothingGoesUncounted(units, ds[..|ds| - 1]);
      var reason := Judge(units, b.slots, ds[|ds| - 1].o);
      if reason != Kept {
        CountedOnce(b.drops, reason);
      }
    }
  }

  // ----- the reduction

  /** Some expected observer's current report carries this finding. */
  ghost predicate CurrentlyFinds(slots: Slots, u: Unit, now: int, finding: Status) {
    exists i :: 0 <= i < |u.observers| && RoleFinds(slots, u, now, u.observers[i], finding)
  }

  predicate RoleFinds(slots: Slots, u: Unit, now: int, role: string, finding: Status) {
    var slot := SlotOf(slots, u.key, role);
    slot.Some? && Fresh(u, slot.value, now) && slot.value.status == finding
  }

  lemma {:induction false} VerdictsAreFindings(slots: Slots, u: Unit, roles: seq<string>, now: int)
    ensures forall v :: v in Verdicts(slots, u, roles, now) <==>
              v.Finding() && exists i :: 0 <= i < |roles| && RoleFinds(slots, u, now, roles[i], v)
  {
    if roles != [] {
      var rest := roles[..|roles| - 1];
      VerdictsAreFindings(slots, u, rest, now);
      forall v
        ensures v in Verdicts(slots, u, roles, now) <==>
                v.Finding() && exists i :: 0 <= i < |roles| && RoleFinds(slots, u, now, roles[i], v)
      {
        if v.Finding() && exists i :: 0 <= i < |rest| && RoleFinds(slots, u, now, rest[i], v) {
          var i :| 0 <= i < |rest| && RoleFinds(slots, u, now, rest[i], v);
          assert roles[i] == rest[i];
        }
      }
    }
  }

  /**
   What a unit's status means, whatever order its observers are listed in: a finding is
   reported exactly when some current report makes it and none makes the other; current
   findings that disagree are Degraded, and none at all is Unknown.
   */
  lemma StatusMeansAgreement(slots: Slots, u: Unit, now: int)
    ensures var up, down := CurrentlyFinds(slots, u, now, Healthy), CurrentlyFinds(slots, u, now, Unhealthy);
            Rendered(slots, u, now).status ==
              if up && down then Degraded else if up then Healthy else if down then Unhealthy else Unknown
  {
    var roles := Sort(u.observers, StringLeq);
    StringOrder();
    SortKeepsElements(u.observers, StringLeq);
    VerdictsAreFindings(slots, u, roles, now);
    var vs := Verdicts(slots, u, roles, now);
    forall v: Status | v == Healthy || v == Unhealthy
      ensures v in vs <==> CurrentlyFinds(slots, u, now, v)
    {
      if CurrentlyFinds(slots, u, now, v) {
        var i :| 0 <= i < |u.observers| && RoleFinds(slots, u, now, u.observers[i], v);
        assert u.observers[i] in roles;
      }
      if v in vs {
        var i :| 0 <= i < |roles| && RoleFinds(slots, u, now, roles[i], v);
        assert roles[i] in u.observers;
      }
    }
    assert forall i :: 0 <= i < |vs| ==> vs[i] in vs;
    if vs != [] {
      assert vs[0] in vs;
    }
  }

  /**
   Two instances answer alike: where two views hold the same content and find the same
   reports current, they give the unit the same status and miss the same observers.
   */
  lemma {:induction false} SameFreshnessSameAnswer(slots: Slots, slots': Slots, u: Unit, now: int, now': int,
                                                   roles: seq<string>)
    requires forall i :: 0 <= i < |roles| ==>
               var a, b := SlotOf(slots, u.key, roles[i]), SlotOf(slots', u.key, roles[i]);
               SaidOf(a) == SaidOf(b) && (a.Some? ==> Fresh(u, a.value, now) == Fresh(u, b.value, now'))
    ensures Verdicts(slots, u, roles, now) == Verdicts(slots', u, roles, now')
    ensures Missing(slots, u, roles) == Missing(slots', u, roles)
    ensures StaleRoles(slots, u, roles, now) == StaleRoles(slots', u, roles, now')
  {
    if roles != [] {
      var rest := roles[..|roles| - 1];
      assert forall i :: 0 <= i < |rest| ==> rest[i] == roles[i];
      SameFreshnessSameAnswer(slots, slots', u, now, now', rest);
    }
  }

  lemma ConvergedViewsAnswerAlike(units: Inventory, ds: seq<Delivery>, ds': seq<Delivery>, u: Unit, now: int, now': int)
    requires Genuine(ds)
    requires forall role, o :: Delivers(units, ds, u.key, role, o) <==> Delivers(units, ds', u.key, role, o)
    requires forall role :: var a, b := SlotAfter(units, ds, u.key, role), SlotAfter(units, ds', u.key, role);
                            a.Some? && b.Some? ==> Fresh(u, a.value, now) == Fresh(u, b.value, now')
    ensures var a, b := Rendered(Folded(units, ds).slots, u, now), Rendered(Folded(units, ds').slots, u, now');
            a.status == b.status && a.missing == b.missing && a.stale == b.stale && a.expected == b.expected
  {
    var roles := Sort(u.observers, StringLeq);
    forall i | 0 <= i < |roles|
      ensures SaidOf(SlotAfter(units, ds, u.key, roles[i])) == SaidOf(SlotAfter(units, ds', u.key, roles[i]))
    {
      ViewsConverge(units, ds, ds', u.key, roles[i]);
    }
    SameFreshnessSameAnswer(Folded(units, ds).slots, Folded(units, ds').slots, u, now, now', roles);
  }
}
