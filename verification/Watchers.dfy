/**
 The two loops that run beside an Active composition: the renewal loop, which must stop
 this instance before its grant runs out, and the failback watcher, which must not hand
 the machine back to a Primary that only flickers.
 */
module Watchers {
  import opened Options
  import opened Lease

  // ----- the renewal loop

  /**
   One tick: the instant the renewal is stamped with, what the file holds when it is
   read, which access fails, and the instant a failure is weighed at.
   */
  datatype Tick = Tick(now: int, file: Option<Record>, fault: Fault, checkedAt: int)

  function Renewal(me: Identity, hold: Hold, t: Tick): Changed {
    RenewStep(me, t.now, hold, t.file, t.fault)
  }

  /** What the instance remembers after the loop has been through these ticks. */
  function HoldAfter(me: Identity, hold: Hold, ticks: seq<Tick>): Hold {
    if ticks == [] then hold
    else Renewal(me, HoldAfter(me, hold, ticks[..|ticks| - 1]), ticks[|ticks| - 1]).hold
  }

  /** The error of the k-th renewal, None when it extended the grant. */
  function ErrorAt(me: Identity, hold: Hold, ticks: seq<Tick>, k: nat): Option<LeaseError>
    requires k < |ticks|
  {
    Renewal(me, HoldAfter(me, hold, ticks[..k]), ticks[k]).error
  }

  function ExpiryAt(me: Identity, hold: Hold, ticks: seq<Tick>, k: nat): int
    requires k < |ticks|
  {
    HoldAfter(me, hold, ticks[..k]).owned.expires
  }

  ghost predicate Transient(me: Identity, hold: Hold, ticks: seq<Tick>, k: nat)
    requires k < |ticks|
  {
    var e := ErrorAt(me, hold, ticks, k);
    e.Some? && e.value != OwnershipLost
  }

  ghost predicate StopsAt(me: Identity, renewalInterval: int, hold: Hold, ticks: seq<Tick>, k: nat)
    requires k < |ticks|
  {
    || ErrorAt(me, hold, ticks, k) == Some(OwnershipLost)
    || (Transient(me, hold, ticks, k) && ticks[k].checkedAt > ExpiryAt(me, hold, ticks, k) - renewalInterval)
  }

  /** The loop stops serving at the first tick that calls for it, and at no other. */
  method RenewalLoop(lease: Handle, renewalInterval: int, ticks: seq<Tick>) returns (stopped: Option<nat>)
    modifies lease, lease.file
    ensures stopped.Some? ==>
              && stopped.value < |ticks|
              && StopsAt(lease.me, renewalInterval, old(lease.Memory()), ticks, stopped.value)
              && forall i: nat :: i < stopped.value ==>
                 !StopsAt(lease.me, renewalInterval, old(lease.Memory()), ticks, i)
    ensures stopped.None? ==>
              && lease.Memory() == HoldAfter(lease.me, old(lease.Memory()), ticks)
              && forall i: nat :: i < |ticks| ==> !StopsAt(lease.me, renewalInterval, old(lease.Memory()), ticks, i)
  {
    ghost var start := lease.Memory();
    var k := 0;
    while k < |ticks|
      invariant k <= |ticks|
      invariant lease.Memory() == HoldAfter(lease.me, start, ticks[..k])
      invariant forall i: nat :: i < k ==> !StopsAt(lease.me, renewalInterval, start, ticks, i)
    {
      assert ticks[..k + 1][..k] == ticks[..k];
      lease.file.record := ticks[k].file;
      var error := lease.Renew(ticks[k].now, ticks[k].fault);
      if error == Some(OwnershipLost) {
        return Some(k);
      }
      if error.Some? && ticks[k].checkedAt > lease.owned.expires - renewalInterval {
        return Some(k);
      }
      k := k + 1;
    }
    assert ticks[..k] == ticks;
    stopped := None;
  }

  /**
   When the loop stops, in terms of the tick itself: at once where the file names another or
   none, and where it cannot be read or written only within one interval of expiry.
   */
  lemma StopsExactlyWhen(me: Identity, renewalInterval: int, hold: Hold, ticks: seq<Tick>, k: nat)
    requires k < |ticks| && HoldAfter(me, hold, ticks[..k]).held
    ensures var h, t := HoldAfter(me, hold, ticks[..k]), ticks[k];
            var named := t.file.Some? && t.file.value.owner == h.owned.owner;
            var failed := t.fault == ReadFails || (named && t.fault == WriteFails);
            StopsAt(me, renewalInterval, hold, ticks, k)
            <==> (t.fault != ReadFails && !named) || (failed && h.owned.expires - renewalInterval < t.checkedAt)
  {
  }

  /**
   Attempts come at most one renewal interval after the grant in force was stamped, or
   after the failed attempt before.
   */
  ghost predicate Punctual(me: Identity, renewalInterval: int, hold: Hold, granted: int, ticks: seq<Tick>) {
    && (|ticks| > 0 ==> ticks[0].checkedAt <= granted + renewalInterval)
    && forall k: nat :: 0 < k < |ticks| ==>
         var since := if ErrorAt(me, hold, ticks, k - 1).None? then ticks[k - 1].now else ticks[k - 1].checkedAt;
         ticks[k].checkedAt <= since + renewalInterval
  }

  /**
   The step-down bound. A punctual loop that gives up on transient failures does so
   within the last renewal interval of its grant, and never after the grant ran out.
   */
  lemma StepDownBound(me: Identity, renewalInterval: int, hold: Hold, granted: int, ticks: seq<Tick>, k: nat)
    requires 0 < renewalInterval < me.duration
    requires hold.owned.expires == granted + me.duration
    requires Punctual(me, renewalInterval, hold, granted, ticks)
    requires k < |ticks| && Transient(me, hold, ticks, k) && StopsAt(me, renewalInterval, hold, ticks, k)
    requires forall i: nat :: i < k ==> !StopsAt(me, renewalInterval, hold, ticks, i)
    ensures var expiry := ExpiryAt(me, hold, ticks, k);
            expiry - renewalInterval < ticks[k].checkedAt <= expiry
  {
    if k > 0 {
      assert ticks[..k][..k - 1] == ticks[..k - 1];
      assert !StopsAt(me, renewalInterval, hold, ticks, k - 1);
      assert HoldAfter(me, hold, ticks[..k]) == Renewal(me, HoldAfter(me, hold, ticks[..k - 1]), ticks[k - 1]).hold;
    }
  }

  lemma {:induction false} FailuresKeepTheGrant(me: Identity, hold: Hold, ticks: seq<Tick>, k: nat)
    requires k <= |ticks|
    requires forall i: nat :: i < k ==> Transient(me, hold, ticks, i)
    ensures HoldAfter(me, hold, ticks[..k]) == hold
  {
    if k > 0 {
      assert ticks[..k][..k - 1] == ticks[..k - 1];
      FailuresKeepTheGrant(me, hold, ticks, k - 1);
      assert Transient(me, hold, ticks, k - 1);
    }
  }

  /**
   With attempts exactly one interval apart, all failing, serving is stopped at
   granted + duration - duration % renewalInterval: strictly before the grant runs out
   unless the interval divides the duration, and then at the very instant a promoter
   first sees it expired, not one interval earlier.
   */
  lemma EvenlySpacedStepDown(me: Identity, renewalInterval: int, hold: Hold, granted: int, ticks: seq<Tick>, k: nat)
    requires 0 < renewalInterval < me.duration
    requires hold.owned.expires == granted + me.duration
    requires forall i: nat :: i < |ticks| ==>
               Transient(me, hold, ticks, i) && ticks[i].checkedAt == granted + (i + 1) * renewalInterval
    requires k < |ticks| && StopsAt(me, renewalInterval, hold, ticks, k)
    requires forall i: nat :: i < k ==> !StopsAt(me, renewalInterval, hold, ticks, i)
    ensures ticks[k].checkedAt == granted + me.duration - me.duration % renewalInterval
    ensures hold.owned.Expired(ticks[k].checkedAt) <==> me.duration % renewalInterval == 0
  {
    var d, r := me.duration, renewalInterval;
    FailuresKeepTheGrant(me, hold, ticks, k);
    assert Transient(me, hold, ticks, k);
    assert (k + 1) * r > d - r;
    if k > 0 {
      FailuresKeepTheGrant(me, hold, ticks, k - 1);
      assert Transient(me, hold, ticks, k - 1) && !StopsAt(me, r, hold, ticks, k - 1);
      assert k * r <= d - r;
    }
    Quotient(d, r, k + 1);
  }

  lemma Quotient(d: int, r: int, q: nat)
    requires 0 < r && q * r <= d < (q + 1) * r
    ensures q * r == d - d % r
  {
    var e := d / r;
    assert d == e * r + d % r;
    Cancel(q, e + 1, r);
    Cancel(e, q + 1, r);
  }

  lemma Cancel(a: int, b: int, r: int)
    requires 0 < r
    ensures a * r < b * r <==> a < b
  {
  }

  // ----- the failback watcher

  /** One poll of the Primary: the answer, and the two instants the watcher reads after it. */
  datatype Poll = Poll(healthy: bool, seenAt: int, checkedAt: int)

  /** The clock the watcher reads does not run backwards. */
  ghost predicate Monotone(polls: seq<Poll>) {
    && (forall i :: 0 <= i < |polls| ==> polls[i].seenAt <= polls[i].checkedAt)
    && (forall i, j :: 0 <= i < j < |polls| ==> polls[i].checkedAt <= polls[j].seenAt)
  }

  /** Every poll from j to k answered healthy, and j is at least the window old at k. */
  ghost predicate StableSince(polls: seq<Poll>, window: int, j: nat, k: nat) {
    && j <= k < |polls|
    && polls[k].checkedAt - polls[j].seenAt >= window
    && forall i :: j <= i <= k ==> polls[i].healthy
  }

  ghost predicate Stable(polls: seq<Poll>, window: int, k: nat) {
    exists j: nat :: StableSince(polls, window, j, k)
  }

  /**
   The watcher hands back at the first poll that ends a stretch of healthy answers as
   long as the stabilization window, and never while no such stretch has ended.
   */
  method FailbackLoop(polls: seq<Poll>, window: int) returns (fired: Option<nat>)
    requires Monotone(polls)
    ensures fired.Some? ==>
              && fired.value < |polls| && Stable(polls, window, fired.value)
              && forall i: nat :: i < fired.value ==> !Stable(polls, window, i)
    ensures fired.None? ==> forall i: nat :: i < |polls| ==> !Stable(polls, window, i)
  {
    var healthySince: Option<int> := None;
    ghost var from: nat := 0;
    var k := 0;
    while k < |polls|
      invariant k <= |polls|
      invariant forall i: nat :: i < k ==> !Stable(polls, window, i)
      // The stretch of healthy polls that ends at k - 1 begins at from.
      invariant from <= k
      invariant forall i :: from <= i < k ==> polls[i].healthy
      invariant from > 0 ==> !polls[from - 1].healthy
      invariant healthySince == if from < k then Some(polls[from].seenAt) else None
    {
      if !polls[k].healthy {
        healthySince := None;
        from := k + 1;
      } else {
        if healthySince.None? {
          healthySince := Some(polls[k].seenAt);
        }
        if polls[k].checkedAt - healthySince.value >= window {
          assert StableSince(polls, window, from, k);
          return Some(k);
        }
        forall j: nat | j <= k
          ensures !StableSince(polls, window, j, k)
        {
          if j < from {
            assert !polls[from - 1].healthy;
          }
        }
      }
      k := k + 1;
    }
    fired := None;
  }

  /**
   Against a Primary that answers every poll, polled at one interval, the watcher fires at
   the first poll that comes a window or more after the first answer, and at no earlier one.
   */
  lemma EvenlyPolled(polls: seq<Poll>, window: int, first: int, interval: int, k: nat)
    requires 0 < interval && k < |polls|
    requires forall i :: 0 <= i < |polls| ==>
               polls[i].healthy && polls[i].seenAt == polls[i].checkedAt == first + i * interval
    ensures Stable(polls, window, k) <==> k * interval >= window
  {
    assert StableSince(polls, window, 0, k) <==> k * interval >= window;
    if j: nat :| StableSince(polls, window, j, k) {
      Cancel(0, j + 1, interval);
      assert j * interval >= 0;
      assert polls[k].checkedAt - polls[j].seenAt == k * interval - j * interval;
    }
  }

  /** A poll that fails starts the stretch anew: no answer before it counts. */
  lemma FailedPollResets(polls: seq<Poll>, window: int, down: nat, k: nat)
    requires down <= k < |polls| && !polls[down].healthy && Stable(polls, window, k)
    ensures exists j: nat :: down < j && StableSince(polls, window, j, k)
  {
  }
}
