/**
 One worker watching one service: a debounced status folded from attempt outcomes, and the
 instants its reports are made at, which decide how much loss and delay a receiver can
 take before what it holds counts as stale.
 */
module Monitoring {
  import opened Options
  import opened HealthView
  import D = Descriptor

  // ----- the tracker

  datatype Tracked = Tracked(status: Status, failures: nat)

  function Recorded(t: Tracked, retries: nat, ok: bool): Tracked {
    if ok then Tracked(Healthy, 0)
    else
      var failures := if t.failures < retries then t.failures + 1 else t.failures;
      Tracked(if failures >= retries then Unhealthy else t.status, failures)
  }

  class Tracker {
    const retries: nat
    var status: Status
    var failures: nat

    function Now(): Tracked
      reads this
    {
      Tracked(status, failures)
    }

    constructor (retries: nat)
      ensures this.retries == retries && Now() == Tracked(Unknown, 0)
    {
      this.retries := retries;
      status, failures := Unknown, 0;
    }

    method Record(ok: bool) returns (reported: Status, pending: nat)
      modifies this
      ensures Now() == Recorded(old(Now()), retries, ok)
      ensures reported == status && pending == failures
    {
      if ok {
        status, failures := Healthy, 0;
      } else {
        if failures < retries {
          failures := failures + 1;
        }
        if failures >= retries {
          status := Unhealthy;
        }
      }
      reported, pending := status, failures;
    }
  }

  function TrackedAfter(retries: nat, outcomes: seq<bool>): Tracked {
    if outcomes == [] then Tracked(Unknown, 0)
    else Recorded(TrackedAfter(retries, outcomes[..|outcomes| - 1]), retries, outcomes[|outcomes| - 1])
  }

  /** How many attempts have failed since the last success, or since the start. */
  function Trailing(outcomes: seq<bool>): (n: nat)
    ensures n <= |outcomes|
    ensures forall i :: |outcomes| - n <= i < |outcomes| ==> !outcomes[i]
    ensures n < |outcomes| ==> outcomes[|outcomes| - n - 1]
  {
    if outcomes == [] || outcomes[|outcomes| - 1] then 0
    else
      var before := outcomes[..|outcomes| - 1];
      var n := Trailing(before);
      assert forall i :: 0 <= i < |before| ==> before[i] == outcomes[i];
      n + 1
  }

  /**
   The status needs no memory but the tail: Unhealthy exactly when the last retries attempts
   failed, otherwise Healthy exactly if any attempt ever succeeded. The pending count is
   that tail, capped.
   */
  lemma {:induction false} StatusIsTheTail(retries: nat, outcomes: seq<bool>)
    requires retries >= 1
    ensures var t, n := TrackedAfter(retries, outcomes), Trailing(outcomes);
            && t.failures == (if n < retries then n else retries)
            && t.status == (if n >= retries then Unhealthy else if n < |outcomes| then Healthy else Unknown)
  {
    if outcomes != [] {
      StatusIsTheTail(retries, outcomes[..|outcomes| - 1]);
    }
  }

  // ----- the phase a worker starts in

  type Octets = seq<bv8>

  /** The 64-bit FNV-1a digest. */
  function Digest(text: Octets): bv64 {
    if text == [] then 0xcbf2_9ce4_8422_2325
    else (Digest(text[..|text| - 1]) ^ (text[|text| - 1] as bv64)) * 0x0000_0100_0000_01b3
  }

  /** What is hashed: observer and service, a zero byte between them. */
  function Phase(observer: Octets, service: Octets): Octets {
    observer + [0] + service
  }

  function JitterFor(observer: Octets, service: Octets, interval: int): nat {
    if interval <= 0 then 0 else (Digest(Phase(observer, service)) as int) % interval
  }

  /** What is hashed tells observer and service apart as long as no observer holds a zero byte; a service may. */
  lemma PhasesDiffer(observer: Octets, service: Octets, observer': Octets, service': Octets)
    requires 0 !in observer && 0 !in observer' && Phase(observer, service) == Phase(observer', service')
    ensures observer == observer' && service == service'
  {
    var a := Phase(observer, service);
    FirstZero(observer, service);
    FirstZero(observer', service');
    assert |observer| == |observer'|;
    assert a[..|observer|] == observer && a[..|observer'|] == observer';
    assert a[|observer| + 1..] == service && a[|observer'| + 1..] == service';
  }

  lemma FirstZero(observer: Octets, service: Octets)
    requires 0 !in observer
    ensures Phase(observer, service)[|observer|] == 0
    ensures forall i :: 0 <= i < |observer| ==> Phase(observer, service)[i] != 0
  {
    assert forall i :: 0 <= i < |observer| ==> observer[i] in observer && Phase(observer, service)[i] == observer[i];
  }

  // ----- the worker's clock

  /** One attempt: whether it succeeded, and how long it took. */
  datatype Attempt = Attempt(ok: bool, latency: int)

  /** The policy of one target, and the phase its worker starts in. */
  datatype Policy = Policy(interval: int, timeout: int, retries: nat, jitter: nat)

  /** The worker an observer starts for one target. */
  function WorkerOf(observer: Octets, service: Octets, interval: int, timeout: int, retries: nat): Policy {
    Policy(interval, timeout, retries, JitterFor(observer, service, interval))
  }

  /** A valid policy, its phase within one interval, and no attempt longer than its timeout. */
  ghost predicate Runs(p: Policy, attempts: seq<Attempt>) {
    && 0 < p.timeout < p.interval && p.jitter < p.interval && p.retries >= 1
    && forall k :: 0 <= k < |attempts| ==> 0 <= attempts[k].latency <= p.timeout
  }

  /** Whoever observes whatever, the phase is within the interval: a worker for a valid target runs. */
  lemma WorkersRun(observer: Octets, service: Octets, interval: int, timeout: int, retries: nat, attempts: seq<Attempt>)
    requires 0 < timeout < interval && retries >= 1
    requires forall k :: 0 <= k < |attempts| ==> 0 <= attempts[k].latency <= timeout
    ensures Runs(WorkerOf(observer, service, interval, timeout, retries), attempts)
  {
  }

  function Spent(attempts: seq<Attempt>): int {
    if attempts == [] then 0 else Spent(attempts[..|attempts| - 1]) + attempts[|attempts| - 1].latency
  }

  function Outcomes(attempts: seq<Attempt>): seq<bool> {
    seq(|attempts|, i requires 0 <= i < |attempts| => attempts[i].ok)
  }

  /** When report k is made, counted from the worker's start: jitter, attempts, and the waits between them. */
  function ReportAt(p: Policy, attempts: seq<Attempt>, k: nat): int
    requires k < |attempts|
  {
    p.jitter + k * p.interval + Spent(attempts[..k + 1])
  }

  /** What the sink is told, and when. */
  datatype Told = Told(checkedAt: int, at: int, latency: int, tracked: Tracked)

  /** What the sink is told of attempt k. */
  ghost predicate Tells(p: Policy, attempts: seq<Attempt>, start: int, k: nat, t: Told)
    requires k < |attempts|
  {
    && t.at == start + ReportAt(p, attempts, k)
    && t.latency == attempts[k].latency && t.checkedAt == t.at - attempts[k].latency
    && t.tracked == TrackedAfter(p.retries, Outcomes(attempts[..k + 1]))
  }

  /**
   The worker's loop, for the attempts it completes before it is stopped: waits out its
   jitter, then probes, reports and waits one interval, over and over, however long an
   attempt takes.
   */
  method RunWorker(p: Policy, attempts: seq<Attempt>, start: int) returns (told: seq<Told>)
    ensures |told| == |attempts| && forall k :: 0 <= k < |told| ==> Tells(p, attempts, start, k, told[k])
  {
    told := [];
    var tracker := new Tracker(p.retries);
    var clock := start + p.jitter;
    for k := 0 to |attempts|
      invariant fresh(tracker) && tracker.retries == p.retries
      invariant tracker.Now() == TrackedAfter(p.retries, Outcomes(attempts[..k]))
      invariant clock == start + p.jitter + k * p.interval + Spent(attempts[..k])
      invariant |told| == k && forall j :: 0 <= j < k ==> Tells(p, attempts, start, j, told[j])
    {
      NextAttempt(p, attempts, k);
      Distribute(k, p.interval);
      var startedAt := clock;
      clock := clock + attempts[k].latency;
      var status, pending := tracker.Record(attempts[k].ok);
      told := told + [Told(startedAt, clock, clock - startedAt, Tracked(status, pending))];
      clock := clock + p.interval;
    }
  }

  lemma NextAttempt(p: Policy, attempts: seq<Attempt>, k: nat)
    requires k < |attempts|
    ensures Spent(attempts[..k + 1]) == Spent(attempts[..k]) + attempts[k].latency
    ensures TrackedAfter(p.retries, Outcomes(attempts[..k + 1]))
            == Recorded(TrackedAfter(p.retries, Outcomes(attempts[..k])), p.retries, attempts[k].ok)
  {
    assert attempts[..k + 1][..k] == attempts[..k];
    assert Outcomes(attempts[..k + 1])[..k] == Outcomes(attempts[..k]);
  }

  // ----- how far apart reports are

  /** The time spent attempting after report a, up to and with report b. */
  function SpentBetween(attempts: seq<Attempt>, a: nat, b: nat): int
    requires a <= b < |attempts|
  {
    Spent(attempts[..b + 1]) - Spent(attempts[..a + 1])
  }

  lemma {:induction false} SpentIsBounded(p: Policy, attempts: seq<Attempt>, a: nat, b: nat)
    requires Runs(p, attempts) && a <= b < |attempts|
    ensures 0 <= SpentBetween(attempts, a, b) <= (b - a) * p.timeout
    ensures ReportAt(p, attempts, b) - ReportAt(p, attempts, a) == (b - a) * p.interval + SpentBetween(attempts, a, b)
    decreases b
  {
    if a < b {
      SpentIsBounded(p, attempts, a, b - 1);
      NextAttempt(p, attempts, b);
      Distribute(b - 1 - a, p.timeout);
    }
    DistributeMinus(a, b, p.interval);
  }

  lemma Distribute(n: int, t: int)
    ensures (n + 1) * t == n * t + t
  {
  }

  lemma DistributeMinus(a: int, b: int, t: int)
    ensures (b - a) * t == b * t - a * t
  {
  }

  /**
   The first report comes after the jitter and its attempt, and each other one interval and
   its attempt after the one before.
   */
  lemma ReportsAreSpaced(p: Policy, attempts: seq<Attempt>, k: nat)
    requires k < |attempts|
    ensures k == 0 ==> ReportAt(p, attempts, k) == p.jitter + attempts[0].latency
    ensures k > 0 ==> ReportAt(p, attempts, k) == ReportAt(p, attempts, k - 1) + p.interval + attempts[k].latency
  {
    NextAttempt(p, attempts, k);
    assert attempts[..0] == [];
    DistributeMinus(k - 1, k, p.interval);
  }

  // ----- what a receiver holds, and how old it may get

  /** When each report reached one receiver, None if it never did. */
  type Arrivals = seq<Option<int>>

  /** At this moment the receiver may still hold report k: it has come, and no later one surely has. */
  ghost predicate Holding(arrivals: Arrivals, now: int, k: nat) {
    && k < |arrivals| && arrivals[k].Some? && arrivals[k].value <= now
    && forall j :: k < j < |arrivals| && arrivals[j].Some? ==> now <= arrivals[j].value
  }

  /** A unit whose stated freshness is the one its policy derives. */
  ghost predicate DerivedFrom(u: Unit, p: Policy) {
    D.Derived(Some(p.interval), Some(p.timeout)) == Some(u.freshFor)
  }

  ghost predicate StaleAt(u: Unit, arrivals: Arrivals, now: int, k: nat)
    requires k < |arrivals| && arrivals[k].Some?
  {
    forall r: Report :: r.receivedAt == arrivals[k].value ==> !Fresh(u, r, now)
  }

  lemma StaleMeansOld(u: Unit, arrivals: Arrivals, now: int, k: nat)
    requires k < |arrivals| && arrivals[k].Some?
    ensures StaleAt(u, arrivals, now, k) <==> now - arrivals[k].value > u.freshFor
  {
    var r := Report(0, 0, Unknown, arrivals[k].value, Detail(0, 0, 0, ""));
    assert Fresh(u, r, now) <==> now - arrivals[k].value <= u.freshFor;
  }

  /** Every report arrives, each at most this much after it was made. */
  ghost predicate Lossless(p: Policy, attempts: seq<Attempt>, start: int, arrivals: Arrivals, delay: int) {
    && |arrivals| == |attempts|
    && forall k :: 0 <= k < |arrivals| ==>
         && arrivals[k].Some?
         && 0 <= arrivals[k].value - (start + ReportAt(p, attempts, k)) <= delay
  }

  /** With nothing lost, and delays of at most one interval, a running worker's report is never stale. */
  lemma LosslessIsNeverStale(p: Policy, attempts: seq<Attempt>, start: int, arrivals: Arrivals, delay: int,
                             u: Unit, now: int, k: nat)
    requires Runs(p, attempts) && DerivedFrom(u, p) && Lossless(p, attempts, start, arrivals, delay)
    requires delay <= p.interval && k + 1 < |attempts| && Holding(arrivals, now, k)
    ensures !StaleAt(u, arrivals, now, k)
  {
    SpentIsBounded(p, attempts, k, k + 1);
    StaleMeansOld(u, arrivals, now, k);
    assert now <= arrivals[k + 1].value;
  }

  /** No run with delays up to this bound ever holds a stale report. */
  ghost predicate Tolerates(interval: int, timeout: int, delay: int) {
    forall p, attempts, start, arrivals, u, now, k: nat ::
      Runs(p, attempts) && p.interval == interval && p.timeout == timeout && DerivedFrom(u, p)
      && Lossless(p, attempts, start, arrivals, delay) && k + 1 < |attempts| && Holding(arrivals, now, k)
      ==> !StaleAt(u, arrivals, now, k)
  }

  /** The tolerance is exactly one interval. */
  lemma ToleranceIsOneInterval(interval: int, timeout: int, delay: int, u: Unit)
    requires 0 < timeout < interval && 0 <= delay
    requires D.Derived(Some(interval), Some(timeout)) == Some(u.freshFor)
    ensures Tolerates(interval, timeout, delay) <==> delay <= interval
  {
    if delay <= interval {
      forall p, attempts, start, arrivals, u, now, k: nat
        | Runs(p, attempts) && p.interval == interval && p.timeout == timeout && DerivedFrom(u, p)
          && Lossless(p, attempts, start, arrivals, delay) && k + 1 < |attempts| && Holding(arrivals, now, k)
        ensures !StaleAt(u, arrivals, now, k)
      {
        LosslessIsNeverStale(p, attempts, start, arrivals, delay, u, now, k);
      }
    } else {
      var p := Policy(interval, timeout, 1, 0);
      var attempts := [Attempt(true, 0), Attempt(true, timeout)];
      NextAttempt(p, attempts, 0);
      NextAttempt(p, attempts, 1);
      var late := interval + timeout + delay;
      var arrivals := [Some(0), Some(late)];
      StaleMeansOld(u, arrivals, late, 0);
      assert Runs(p, attempts) && DerivedFrom(u, p) && Lossless(p, attempts, 0, arrivals, delay);
      assert Holding(arrivals, late, 0) && StaleAt(u, arrivals, late, 0);
    }
  }

  /** Reports arrive as they are made, except for the m after report k. */
  ghost predicate LosesAfter(p: Policy, attempts: seq<Attempt>, start: int, arrivals: Arrivals, k: nat, m: nat) {
    && |arrivals| == |attempts| && k + m + 1 < |attempts|
    && (forall j :: 0 <= j < |arrivals| && arrivals[j].Some? ==> arrivals[j].value == start + ReportAt(p, attempts, j))
    && arrivals[k].Some? && arrivals[k + m + 1].Some?
    && forall j :: k < j <= k + m ==> arrivals[j].None?
  }

  ghost predicate GoesStale(u: Unit, arrivals: Arrivals, k: nat)
    requires k < |arrivals| && arrivals[k].Some?
  {
    exists now :: Holding(arrivals, now, k) && StaleAt(u, arrivals, now, k)
  }

  lemma {:induction false} HeldUntilTheNext(p: Policy, attempts: seq<Attempt>, start: int, arrivals: Arrivals, k: nat,
                                            m: nat)
    requires Runs(p, attempts) && LosesAfter(p, attempts, start, arrivals, k, m)
    ensures Holding(arrivals, arrivals[k + m + 1].value, k)
  {
    forall j | k < j < |arrivals| && arrivals[j].Some?
      ensures arrivals[k + m + 1].value <= arrivals[j].value
    {
      SpentIsBounded(p, attempts, k + m + 1, j);
      NotNegative(j - (k + m + 1), p.interval);
    }
    SpentIsBounded(p, attempts, k, k + m + 1);
    NotNegative(m + 1, p.interval);
  }

  lemma NotNegative(n: int, t: int)
    requires n >= 0 && t >= 0
    ensures n * t >= 0
  {
  }

  /** What is lost decides: a gap of m + 1 intervals and its attempts against what freshness allows. */
  lemma GapDecides(p: Policy, attempts: seq<Attempt>, start: int, arrivals: Arrivals, k: nat, m: nat, u: Unit)
    requires Runs(p, attempts) && DerivedFrom(u, p) && LosesAfter(p, attempts, start, arrivals, k, m)
    ensures GoesStale(u, arrivals, k)
            <==> (m + 1) * p.interval + SpentBetween(attempts, k, k + m + 1) > 2 * p.interval + p.timeout
  {
    SpentIsBounded(p, attempts, k, k + m + 1);
    HeldUntilTheNext(p, attempts, start, arrivals, k, m);
    var last := arrivals[k + m + 1].value;
    StaleMeansOld(u, arrivals, last, k);
    if GoesStale(u, arrivals, k) {
      var now :| Holding(arrivals, now, k) && StaleAt(u, arrivals, now, k);
      StaleMeansOld(u, arrivals, now, k);
      assert now <= last;
    }
  }

  /**
   One lost report makes what the receiver holds stale if and only if the two attempts
   around the next report took longer together than one timeout, and then for no longer
   than one timeout.
   */
  lemma OneLostReport(p: Policy, attempts: seq<Attempt>, start: int, arrivals: Arrivals, k: nat, u: Unit)
    requires Runs(p, attempts) && DerivedFrom(u, p) && LosesAfter(p, attempts, start, arrivals, k, 1)
    ensures GoesStale(u, arrivals, k) <==> attempts[k + 1].latency + attempts[k + 2].latency > p.timeout
    ensures forall now :: Holding(arrivals, now, k) && StaleAt(u, arrivals, now, k) ==>
                            now - (arrivals[k].value + u.freshFor) <= p.timeout
  {
    GapDecides(p, attempts, start, arrivals, k, 1, u);
    NextAttempt(p, attempts, k + 1);
    NextAttempt(p, attempts, k + 2);
    SpentIsBounded(p, attempts, k, k + 2);
  }

  /** Two in a row always do: an interval is longer than a timeout. */
  lemma TwoLostReports(p: Policy, attempts: seq<Attempt>, start: int, arrivals: Arrivals, k: nat, m: nat, u: Unit)
    requires Runs(p, attempts) && DerivedFrom(u, p) && LosesAfter(p, attempts, start, arrivals, k, m) && m >= 2
    ensures GoesStale(u, arrivals, k)
  {
    GapDecides(p, attempts, start, arrivals, k, m, u);
    SpentIsBounded(p, attempts, k, k + m + 1);
    NotNegative(m - 2, p.interval);
    assert (m + 1) * p.interval == 3 * p.interval + (m - 2) * p.interval;
  }

  // ----- the phase, and what the sink is told

  /** The digest is 64-bit FNV-1a: its offset, and two published values. */
  lemma DigestIsFnv()
    ensures Digest([]) == 0xcbf2_9ce4_8422_2325
    ensures Digest([0x61]) == 0xaf63_dc4c_8601_ec8c
    ensures Digest([0x66, 0x6f]) == 0x0898_5907_b541_d342
  {
    var fo: Octets := [0x66, 0x6f];
    assert fo[..1] == [0x66] && fo[..1][..0] == [] && [0x61 as bv8][..0] == [];
    assert Digest(fo[..1]) == (Digest([]) ^ (0x66 as bv64)) * 0x0000_0100_0000_01b3;
  }

  /** A worker starts within its interval, by the digest of observer, zero byte and service. */
  lemma JitterMeans(observer: Octets, service: Octets, interval: int)
    requires interval > 0
    ensures var j := JitterFor(observer, service, interval);
            j < interval && exists q: int :: Digest(observer + [0] + service) as int == q * interval + j
  {
    var q := Division(Digest(observer + [0] + service) as int, interval);
  }

  lemma Division(n: nat, unit: int) returns (q: int)
    requires unit > 0
    ensures 0 <= n % unit < unit && n == q * unit + n % unit
  {
    q := n / unit;
  }

  /**
   What a worker tells: its first attempt starts after the jitter, each other one interval
   after the report before it, so that no two attempts overlap; a report is made when
   its attempt ends, and says Unhealthy exactly if the last retries attempts failed.
   */
  lemma AttemptsNeverOverlap(p: Policy, attempts: seq<Attempt>, start: int, told: seq<Told>, k: nat)
    requires |told| == |attempts| && forall i :: 0 <= i < |told| ==> Tells(p, attempts, start, i, told[i])
    requires k < |told| && p.retries >= 1
    ensures told[k].checkedAt == (if k == 0 then start + p.jitter else told[k - 1].at + p.interval)
    ensures told[k].at == told[k].checkedAt + attempts[k].latency && told[k].latency == attempts[k].latency
    ensures told[k].tracked.status == Unhealthy
            <==> p.retries <= k + 1 && forall i :: k + 1 - p.retries <= i <= k ==> !attempts[i].ok
  {
    ReportsAreSpaced(p, attempts, k);
    StatusIsTheTail(p.retries, Outcomes(attempts[..k + 1]));
    var outcomes := Outcomes(attempts[..k + 1]);
    var n := Trailing(outcomes);
    assert forall i :: 0 <= i <= k ==> outcomes[i] == attempts[i].ok;
    if n < p.retries && p.retries <= k + 1 {
      assert attempts[k - n].ok;
    }
  }
}
