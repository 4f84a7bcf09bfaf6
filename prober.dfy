/** The health prober: once per tick it counts an attempt, asks the service's
    /healthcheck endpoint, and records the answer in two counters and a gauge
    that the metrics exporter publishes. */
module Prober {

  /** What one health-check request came back with: an HTTP status code, or
      a transport failure (connection refused, timeout, ...), which the
      prober logs and swallows. */
  datatype Outcome = Status(code: int) | TransportError

  /** Only status 200 counts as a successful probe. */
  predicate IsSuccess(o: Outcome)
  {
    o.Status? && o.code == 200
  }

  /** The values the exporter publishes:
      oncall_web_probe_requests_total, oncall_web_probe_requests_success_total
      and oncall_web_probe_healthy. */
  datatype Metrics = Metrics(total: nat, success: nat, healthy: int)

  /** Counters are never above each other the wrong way round and the gauge
      is a 0/1 flag. */
  predicate Sound(m: Metrics)
  {
    m.success <= m.total && (m.healthy == 0 || m.healthy == 1)
  }

  /** The effect of one probe on the published values. */
  function Step(m: Metrics, o: Outcome): (r: Metrics)
    ensures r.total == m.total + 1
    ensures r.success == (if IsSuccess(o) then m.success + 1 else m.success)
    ensures r.healthy == 1 <==> IsSuccess(o)
    ensures r.healthy == 0 <==> !IsSuccess(o)
    ensures Sound(m) ==> Sound(r)
  {
    var total := m.total + 1;
    match o
    case Status(code) =>
      if code == 200 then Metrics(total, m.success + 1, 1)
      else Metrics(total, m.success, 0)
    case TransportError =>
      Metrics(total, m.success, 0)
  }

  /** The published values after probing once per outcome, in order. */
  function Ticks(m: Metrics, os: seq<Outcome>): Metrics
    decreases |os|
  {
    if os == [] then m else Step(Ticks(m, os[..|os| - 1]), os[|os| - 1])
  }

  /** The number of successful outcomes. */
  function Successes(os: seq<Outcome>): (n: nat)
    ensures n <= |os|
    decreases |os|
  {
    if os == [] then 0
    else Successes(os[..|os| - 1]) + (if IsSuccess(os[|os| - 1]) then 1 else 0)
  }

  /** Every tick adds one to the attempt counter, and the success counter
      grows by exactly the number of 200 responses. */
  lemma {:induction false} TicksCount(m: Metrics, os: seq<Outcome>)
    ensures Ticks(m, os).total == m.total + |os|
    ensures Ticks(m, os).success == m.success + Successes(os)
    decreases |os|
  {
    if os != [] {
      TicksCount(m, os[..|os| - 1]);
    }
  }

  /** Neither counter ever decreases. */
  lemma TicksMonotonic(m: Metrics, os: seq<Outcome>)
    ensures Ticks(m, os).total >= m.total
    ensures Ticks(m, os).success >= m.success
    ensures os != [] ==> Ticks(m, os).total > m.total
  {
  }

  /** `success <= total` and the 0/1 gauge survive any number of ticks. */
  lemma {:induction false} TicksStaySound(m: Metrics, os: seq<Outcome>)
    requires Sound(m)
    ensures Sound(Ticks(m, os))
    decreases |os|
  {
    if os != [] {
      TicksStaySound(m, os[..|os| - 1]);
    }
  }

  /** After at least one tick the gauge reflects the last probe only. */
  lemma TicksHealthyIsLast(m: Metrics, os: seq<Outcome>)
    requires os != []
    ensures Ticks(m, os).healthy == (if IsSuccess(os[|os| - 1]) then 1 else 0)
  {
  }

  /** After n ticks none of which succeeded, the attempt counter has grown by
      n, the success counter is unchanged and, if n > 0, the gauge is 0. */
  lemma {:induction false} FailingTicks(m: Metrics, os: seq<Outcome>)
    requires forall i :: 0 <= i < |os| ==> !IsSuccess(os[i])
    ensures Ticks(m, os).total == m.total + |os|
    ensures Ticks(m, os).success == m.success
    ensures os != [] ==> Ticks(m, os).healthy == 0
    decreases |os|
  {
    if os != [] {
      var init := os[..|os| - 1];
      assert forall i :: 0 <= i < |init| ==> init[i] == os[i];
      FailingTicks(m, init);
    }
  }

  /** While the service stays unreachable, the gauge reads 0 after every
      tick, the attempt counter has grown by the number of ticks so far and
      the success counter has not moved. */
  lemma UnreachableRun(m: Metrics, os: seq<Outcome>)
    requires forall i :: 0 <= i < |os| ==> os[i] == TransportError
    ensures forall j :: 0 < j <= |os| ==> Ticks(m, os[..j]) == Metrics(m.total + j, m.success, 0)
  {
    forall j | 0 < j <= |os|
      ensures Ticks(m, os[..j]) == Metrics(m.total + j, m.success, 0)
    {
      var run := os[..j];
      assert forall i :: 0 <= i < |run| ==> run[i] == os[i];
      FailingTicks(m, run);
    }
  }

  /** The process-wide metric registry the prober updates in place. */
  class ProbeMetrics {
    var requestsTotal: nat
    var requestsSuccess: nat
    var healthy: int

    function Snapshot(): Metrics
      reads this
    {
      Metrics(requestsTotal, requestsSuccess, healthy)
    }

    /** A fresh registry: both counters and the gauge start at zero. */
    constructor ()
      ensures Snapshot() == Metrics(0, 0, 0) && Sound(Snapshot())
    {
      requestsTotal, requestsSuccess, healthy := 0, 0, 0;
    }

    /** One probe: count the attempt first, then record the outcome. */
    method Probe(o: Outcome)
      modifies this
      ensures Snapshot() == Step(old(Snapshot()), o)
      ensures requestsTotal == old(requestsTotal) + 1
      ensures requestsSuccess == old(requestsSuccess) + (if IsSuccess(o) then 1 else 0)
      ensures healthy == (if IsSuccess(o) then 1 else 0)
    {
      requestsTotal := requestsTotal + 1;
      match o {
        case Status(code) =>
          if code == 200 {
            requestsSuccess := requestsSuccess + 1;
            healthy := 1;
          } else {
            healthy := 0;
          }
        case TransportError =>
          healthy := 0;
      }
    }
  }

  /** The prober's main loop, run for as many ticks as there are outcomes;
      the sleep between ticks is not modelled. */
  method RunProber(metrics: ProbeMetrics, os: seq<Outcome>)
    modifies metrics
    ensures metrics.Snapshot() == Ticks(old(metrics.Snapshot()), os)
    ensures metrics.requestsTotal == old(metrics.requestsTotal) + |os|
    ensures metrics.requestsSuccess == old(metrics.requestsSuccess) + Successes(os)
    ensures old(Sound(metrics.Snapshot())) ==> Sound(metrics.Snapshot())
  {
    ghost var start := metrics.Snapshot();
    var i := 0;
    while i < |os|
      invariant 0 <= i <= |os|
      invariant metrics.Snapshot() == Ticks(start, os[..i])
    {
      metrics.Probe(os[i]);
      assert os[..i + 1][..i] == os[..i];
      i := i + 1;
    }
    assert os[..i] == os;
    TicksCount(start, os);
    if Sound(start) {
      TicksStaySound(start, os);
    }
  }
}
