/**
 * Packet listeners that keep a window of recent traffic per codec: a plain
 * collector that keeps whole packets and evicts old ones as new ones arrive,
 * and a rolling statistics collector that keeps per-packet figures and
 * trims them when asked for statistics.
 */
module Collectors {
  import opened Options
  import opened LinkPackets

  // ---------------------------------------------------------------------------
  // Collector
  // ---------------------------------------------------------------------------

  /** The packets kept for a codec; a codec never seen has none. */
  function PacketsOf(packets: map<nat, seq<LinkPacket>>, codecId: nat): seq<LinkPacket>
  {
    if codecId in packets then packets[codecId] else []
  }

  /**
   * The front eviction: how many leading packets are dropped when packets at
   * least `limit` microseconds older than the newest are removed from the
   * front, one at a time, until the front is younger.
   */
  function Evicted(p: seq<LinkPacket>, newest: int, limit: int): (k: nat)
    requires limit > 0 && |p| > 0 && p[|p| - 1].rxTs == newest
    ensures k < |p|
    ensures newest - p[k].rxTs < limit
    ensures forall j :: 0 <= j < k ==> newest - p[j].rxTs >= limit
    decreases |p|
  {
    if newest - p[0].rxTs >= limit then 1 + Evicted(p[1..], newest, limit) else 0
  }

  /** The packet map after Collector.add. */
  function CollectorAdd(packets: map<nat, seq<LinkPacket>>, limit: Option<int>, codecId: nat, packet: LinkPacket)
    : (r: map<nat, seq<LinkPacket>>)
    requires limit.None? || limit.value > 0
    ensures codecId in r
    ensures forall c :: c != codecId ==> (c in r <==> c in packets) && (c in packets ==> r[c] == packets[c])
  {
    var p := PacketsOf(packets, codecId) + [packet];
    assert p[|p| - 1] == packet;
    packets[codecId := if limit.Some? then p[Evicted(p, packet.rxTs, limit.value)..] else p]
  }

  predicate SortedByRxTs(p: seq<LinkPacket>)
  {
    forall i, j :: 0 <= i < j < |p| ==> p[i].rxTs <= p[j].rxTs
  }

  /** A codec's deque in a well-formed state: in arrival order and, with a limit, all younger than the limit. */
  predicate Windowed(p: seq<LinkPacket>, limit: Option<int>)
  {
    && SortedByRxTs(p)
    && (limit.Some? && |p| > 0 ==> forall j :: 0 <= j < |p| ==> p[|p| - 1].rxTs - p[j].rxTs < limit.value)
  }

  /**
   * Adding a packet no older than those kept keeps the window: the new
   * packet is last, nothing younger than the limit is lost, and every kept
   * packet is within the limit of the newest.
   */
  lemma CollectorAddWindowed(packets: map<nat, seq<LinkPacket>>, limit: Option<int>, codecId: nat, packet: LinkPacket)
    requires limit.None? || limit.value > 0
    requires Windowed(PacketsOf(packets, codecId), limit)
    requires forall j :: 0 <= j < |PacketsOf(packets, codecId)| ==> PacketsOf(packets, codecId)[j].rxTs <= packet.rxTs
    ensures var r := CollectorAdd(packets, limit, codecId, packet)[codecId];
            var full := PacketsOf(packets, codecId) + [packet];
            && Windowed(r, limit)
            && 0 < |r| && r[|r| - 1] == packet
            && r == full[|full| - |r|..]
            && (limit.Some? ==> forall j :: 0 <= j < |full| - |r| ==> packet.rxTs - full[j].rxTs >= limit.value)
            && (limit.None? ==> r == full)
  {
    var old_ := PacketsOf(packets, codecId);
    var full := old_ + [packet];
    assert full[|full| - 1] == packet;
    SortedAppend(old_, packet);
    var r := CollectorAdd(packets, limit, codecId, packet)[codecId];
    if limit.Some? {
      EvictWindowed(full, limit.value);
      var d := Evicted(full, packet.rxTs, limit.value);
      assert r == full[d..] && |full| - |r| == d;
    }
  }

  /** A packet no older than any stored one keeps the list in arrival order. */
  lemma SortedAppend(p: seq<LinkPacket>, packet: LinkPacket)
    requires SortedByRxTs(p)
    requires forall j :: 0 <= j < |p| ==> p[j].rxTs <= packet.rxTs
    ensures SortedByRxTs(p + [packet])
  {
    var full := p + [packet];
    forall i, j | 0 <= i < j < |full|
      ensures full[i].rxTs <= full[j].rxTs
    {
      if j < |p| {
        assert full[i] == p[i] && full[j] == p[j];
      } else {
        assert full[i] == p[i];
      }
    }
  }

  lemma SuffixSorted(p: seq<LinkPacket>, d: nat)
    requires d <= |p| && SortedByRxTs(p)
    ensures SortedByRxTs(p[d..])
  {
    var r := p[d..];
    forall i, j | 0 <= i < j < |r|
      ensures r[i].rxTs <= r[j].rxTs
    {
      assert r[i] == p[d + i] && r[j] == p[d + j];
    }
  }

  /** Evicting from a deque in arrival order leaves a deque in arrival order within the limit. */
  lemma EvictWindowed(p: seq<LinkPacket>, limit: int)
    requires limit > 0 && |p| > 0 && SortedByRxTs(p)
    ensures Windowed(p[Evicted(p, p[|p| - 1].rxTs, limit)..], Some(limit))
  {
    var newest := p[|p| - 1].rxTs;
    var d := Evicted(p, newest, limit);
    var r := p[d..];
    assert newest - p[d].rxTs < limit;
    SuffixSorted(p, d);
    assert r[|r| - 1].rxTs == newest;
    forall j | 0 <= j < |r|
      ensures r[|r| - 1].rxTs - r[j].rxTs < limit
    {
      assert r[0].rxTs <= r[j].rxTs;
    }
  }

  /** Collector: a deque of packets per codec, with an optional window in microseconds. */
  class Collector {
    var packets: map<nat, seq<LinkPacket>>
    const timeLimit: Option<int>

    constructor (timeLimit: Option<int>)
      ensures packets == map[] && this.timeLimit == timeLimit
    {
      packets := map[];
      this.timeLimit := timeLimit;
    }

    /** add: appends the packet to its codec's deque, then evicts from the front while the front is too old. */
    method Add(codecId: nat, packet: LinkPacket)
      requires timeLimit.None? || timeLimit.value > 0
      modifies this
      ensures packets == CollectorAdd(old(packets), timeLimit, codecId, packet)
    {
      var p := PacketsOf(packets, codecId);
      p := p + [packet];
      ghost var full := p;
      assert full[|full| - 1] == packet;
      if timeLimit.Some? {
        ghost var dropped := 0;
        while packet.rxTs - p[0].rxTs >= timeLimit.value
          invariant dropped <= Evicted(full, packet.rxTs, timeLimit.value)
          invariant p == full[dropped..]
          decreases |p|
        {
          p := p[1..];
          dropped := dropped + 1;
        }
        assert dropped == Evicted(full, packet.rxTs, timeLimit.value);
      }
      packets := packets[codecId := p];
    }
  }

  // ---------------------------------------------------------------------------
  // RollingStatsCollector
  // ---------------------------------------------------------------------------

  function Abs(x: real): real
  {
    if x < 0.0 then -x else x
  }

  /** abs(rx_fd - tx_fd): the per-channel error of a packet. */
  function Errors(rx: seq<real>, tx: seq<real>): (r: seq<real>)
    requires |rx| == |tx|
    ensures |r| == |rx| && forall i :: 0 <= i < |r| ==> r[i] == Abs(rx[i] - tx[i])
  {
    if rx == [] then [] else [Abs(rx[0] - tx[0])] + Errors(rx[1..], tx[1..])
  }

  /** The largest element of a non-empty sequence. */
  function MaxOf(s: seq<real>): (r: real)
    requires |s| > 0
    ensures forall i :: 0 <= i < |s| ==> s[i] <= r
    ensures exists i :: 0 <= i < |s| && s[i] == r
  {
    if |s| == 1 then s[0]
    else
      var m := MaxOf(s[1..]);
      assert forall i :: 1 <= i < |s| ==> s[i] == s[1..][i - 1];
      if s[0] >= m then s[0] else m
  }

  function SumOf(s: seq<real>): real
  {
    if s == [] then 0.0 else s[0] + SumOf(s[1..])
  }

  /** statistics.mean of a non-empty sequence. */
  function MeanOf(s: seq<real>): real
    requires |s| > 0
  {
    SumOf(s) / |s| as real
  }

  /** The figures RollingStatsCollector.add records for a packet. */
  function Metric(p: LinkPacket): (m: PacketMetric)
    requires |p.rxFd| == |p.txFd| > 0
    ensures m.rxTs == p.rxTs && m.latency == p.rxTs - p.txTs
  {
    var errors := Errors(p.rxFd, p.txFd);
    PacketMetric(p.rxTs, p.rxTs - p.txTs, MaxOf(errors), MeanOf(errors))
  }

  function MetricsOf(metrics: map<nat, seq<PacketMetric>>, codecId: nat): seq<PacketMetric>
  {
    if codecId in metrics then metrics[codecId] else []
  }

  /** The metrics map after RollingStatsCollector.add. */
  function RollingAdd(metrics: map<nat, seq<PacketMetric>>, codecId: nat, p: LinkPacket): (r: map<nat, seq<PacketMetric>>)
    requires |p.rxFd| == |p.txFd| > 0
    ensures r.Keys == metrics.Keys + {codecId}
    ensures forall c :: c in metrics && c != codecId ==> r[c] == metrics[c]
    ensures r[codecId] == MetricsOf(metrics, codecId) + [Metric(p)]
  {
    metrics[codecId := MetricsOf(metrics, codecId) + [Metric(p)]]
  }

  /** The index of the first metric at most `limit` older than `newest`, or |ms| if there is none. */
  function FirstWithin(ms: seq<PacketMetric>, newest: int, limit: int): (k: nat)
    ensures k <= |ms|
    ensures forall j :: 0 <= j < k ==> newest - ms[j].rxTs > limit
    ensures k < |ms| ==> newest - ms[k].rxTs <= limit
  {
    if ms == [] then 0
    else if newest - ms[0].rxTs <= limit then 0
    else 1 + FirstWithin(ms[1..], newest, limit)
  }

  /** The list after the stale prefix is deleted; when no metric is recent enough nothing is deleted. */
  function Trim(ms: seq<PacketMetric>, limit: int): seq<PacketMetric>
    requires |ms| > 0
  {
    var k := FirstWithin(ms, ms[|ms| - 1].rxTs, limit);
    if k < |ms| then ms[k..] else ms
  }

  /**
   * With a non-negative limit the trimmed list is a non-empty suffix that
   * keeps the newest metric; everything dropped is more than `limit` older
   * than the newest and the first kept is not.
   */
  lemma TrimWindow(ms: seq<PacketMetric>, limit: int)
    requires |ms| > 0 && limit >= 0
    ensures var r := Trim(ms, limit);
            && 0 < |r| <= |ms| && r == ms[|ms| - |r|..]
            && r[|r| - 1] == ms[|ms| - 1]
            && ms[|ms| - 1].rxTs - r[0].rxTs <= limit
            && forall j :: 0 <= j < |ms| - |r| ==> ms[|ms| - 1].rxTs - ms[j].rxTs > limit
  {
  }

  /** A metric list in arrival order is, after trimming, entirely within the limit. */
  lemma TrimSorted(ms: seq<PacketMetric>, limit: int)
    requires |ms| > 0 && limit >= 0
    requires forall i, j :: 0 <= i < j < |ms| ==> ms[i].rxTs <= ms[j].rxTs
    ensures var r := Trim(ms, limit);
            forall j :: 0 <= j < |r| ==> ms[|ms| - 1].rxTs - r[j].rxTs <= limit
  {
    TrimWindow(ms, limit);
    var r := Trim(ms, limit);
    forall j | 0 <= j < |r|
      ensures ms[|ms| - 1].rxTs - r[j].rxTs <= limit
    {
      assert r[0] == ms[|ms| - |r|] && r[j] == ms[|ms| - |r| + j];
    }
  }

  /** On a list in arrival order a negative limit deletes nothing, since no metric is ever recent enough. */
  lemma TrimNegative(ms: seq<PacketMetric>, limit: int)
    requires |ms| > 0 && limit < 0
    requires forall i, j :: 0 <= i < j < |ms| ==> ms[i].rxTs <= ms[j].rxTs
    ensures Trim(ms, limit) == ms
  {
  }

  /** Trimming twice trims no more than trimming once. */
  lemma TrimIdempotent(ms: seq<PacketMetric>, limit: int)
    requires |ms| > 0
    ensures |Trim(ms, limit)| > 0
    ensures Trim(Trim(ms, limit), limit) == Trim(ms, limit)
  {
    var r := Trim(ms, limit);
    var k := FirstWithin(ms, ms[|ms| - 1].rxTs, limit);
    if k < |ms| {
      assert r[|r| - 1] == ms[|ms| - 1];
      assert FirstWithin(r, r[|r| - 1].rxTs, limit) == 0;
    }
  }

  // Accumulations over a metric list, element by element from the front.

  function SumLatency(ms: seq<PacketMetric>): int
  {
    if ms == [] then 0 else SumLatency(ms[..|ms| - 1]) + ms[|ms| - 1].latency
  }

  /** The largest latency, or 0 if all are smaller (the accumulation starts at 0). */
  function MaxLatency(ms: seq<PacketMetric>): int
  {
    if ms == [] then 0
    else
      var m := MaxLatency(ms[..|ms| - 1]);
      if m >= ms[|ms| - 1].latency then m else ms[|ms| - 1].latency
  }

  function SumError(ms: seq<PacketMetric>): real
  {
    if ms == [] then 0.0 else SumError(ms[..|ms| - 1]) + ms[|ms| - 1].meanError
  }

  /** The largest per-packet maximum error, or 0.0 if all are smaller. */
  function MaxError(ms: seq<PacketMetric>): real
  {
    if ms == [] then 0.0
    else
      var m := MaxError(ms[..|ms| - 1]);
      if m >= ms[|ms| - 1].maxError then m else ms[|ms| - 1].maxError
  }

  /** A maximum and a mean. */
  datatype BasicStats = BasicStats(max: real, mean: real)

  /** The latency and channel-error figures over a window. */
  datatype WindowStats = WindowStats(latency: BasicStats, fdError: BasicStats)

  /** The statistics of a non-empty metric list: maxima (at least 0) and means. */
  function Summary(ms: seq<PacketMetric>): WindowStats
    requires |ms| > 0
  {
    WindowStats(
      BasicStats(MaxLatency(ms) as real, SumLatency(ms) as real / |ms| as real),
      BasicStats(MaxError(ms), SumError(ms) / |ms| as real))
  }

  /** The latency maximum bounds every latency, is at least 0, and is 0 or one of the latencies. */
  lemma {:induction false} MaxLatencyIsMax(ms: seq<PacketMetric>)
    ensures MaxLatency(ms) >= 0
    ensures forall i :: 0 <= i < |ms| ==> ms[i].latency <= MaxLatency(ms)
    ensures MaxLatency(ms) == 0 || exists i :: 0 <= i < |ms| && ms[i].latency == MaxLatency(ms)
  {
    if ms != [] {
      var init := ms[..|ms| - 1];
      MaxLatencyIsMax(init);
      assert forall i :: 0 <= i < |init| ==> init[i] == ms[i];
    }
  }

  /** The error maximum bounds every per-packet maximum, is at least 0.0, and is 0.0 or one of them. */
  lemma {:induction false} MaxErrorIsMax(ms: seq<PacketMetric>)
    ensures MaxError(ms) >= 0.0
    ensures forall i :: 0 <= i < |ms| ==> ms[i].maxError <= MaxError(ms)
    ensures MaxError(ms) == 0.0 || exists i :: 0 <= i < |ms| && ms[i].maxError == MaxError(ms)
  {
    if ms != [] {
      var init := ms[..|ms| - 1];
      MaxErrorIsMax(init);
      assert forall i :: 0 <= i < |init| ==> init[i] == ms[i];
    }
  }

  lemma {:induction false} SumLatencyBound(ms: seq<PacketMetric>)
    ensures SumLatency(ms) <= |ms| * MaxLatency(ms)
  {
    if ms != [] {
      var init := ms[..|ms| - 1];
      SumLatencyBound(init);
      MaxLatencyIsMax(ms);
      MaxLatencyIsMax(init);
      assert |init| * MaxLatency(init) <= |init| * MaxLatency(ms) by {
        assert MaxLatency(init) <= MaxLatency(ms);
        MulLeq(|init|, MaxLatency(init), MaxLatency(ms));
      }
    }
  }

  lemma MulLeq(n: nat, a: int, b: int)
    requires a <= b
    ensures n * a <= n * b
  {
    assert n * b - n * a == n * (b - a);
  }

  /** The mean latency of a window never exceeds its maximum latency. */
  lemma MeanLatencyAtMostMax(ms: seq<PacketMetric>)
    requires |ms| > 0
    ensures Summary(ms).latency.mean <= Summary(ms).latency.max
  {
    SumLatencyBound(ms);
    var n := |ms| as real;
    assert (SumLatency(ms) as real) <= n * (MaxLatency(ms) as real);
  }

  /** The in-place deletion of stats: drops the metrics before the first one at most `limit` older than the newest. */
  method TrimFront(ms: seq<PacketMetric>, limit: int) returns (r: seq<PacketMetric>)
    requires |ms| > 0
    ensures r == Trim(ms, limit)
  {
    r := ms;
    var newest := ms[|ms| - 1].rxTs;
    var i := 0;
    while i < |r|
      invariant 0 <= i <= |r| && r == ms
      invariant FirstWithin(ms, newest, limit) >= i
    {
      if newest - r[i].rxTs <= limit {
        r := r[i..];
        break;
      }
      i := i + 1;
    }
  }

  /** The loop of stats that accumulates maxima and sums, then divides the sums by the window length. */
  method Summarise(ms: seq<PacketMetric>) returns (s: WindowStats)
    requires |ms| > 0
    ensures s == Summary(ms)
  {
    var sumLatency, maxLatency := 0, 0;
    var sumError, maxError := 0.0, 0.0;
    for k := 0 to |ms|
      invariant sumLatency == SumLatency(ms[..k]) && maxLatency == MaxLatency(ms[..k])
      invariant sumError == SumError(ms[..k]) && maxError == MaxError(ms[..k])
    {
      var pm := ms[k];
      assert ms[..k + 1][..k] == ms[..k];
      sumLatency := sumLatency + pm.latency;
      maxLatency := if maxLatency >= pm.latency then maxLatency else pm.latency;
      sumError := sumError + pm.meanError;
      maxError := if maxError >= pm.maxError then maxError else pm.maxError;
    }
    assert ms[..|ms|] == ms;
    s := WindowStats(
      BasicStats(maxLatency as real, sumLatency as real / |ms| as real),
      BasicStats(maxError, sumError / |ms| as real));
  }

  /** RollingStatsCollector: per codec, the figures of every packet since the last trim. */
  class RollingStatsCollector {
    var metrics: map<nat, seq<PacketMetric>>
    const timeLimit: int

    constructor (timeLimit: int)
      ensures metrics == map[] && this.timeLimit == timeLimit
    {
      metrics := map[];
      this.timeLimit := timeLimit;
    }

    /** add: records the packet's rx time stamp, latency and largest and mean channel error. */
    method Add(codecId: nat, p: LinkPacket)
      requires |p.rxFd| == |p.txFd| > 0
      modifies this
      ensures metrics == RollingAdd(old(metrics), codecId, p)
    {
      var pm := Metric(p);
      metrics := metrics[codecId := MetricsOf(metrics, codecId) + [pm]];
    }

    /**
     * stats: deletes in place the metrics more than the limit older than the
     * newest, then returns the maximum and mean latency and error of the rest.
     */
    method Stats(codecId: nat) returns (s: WindowStats)
      requires codecId in metrics && |metrics[codecId]| > 0
      modifies this
      ensures metrics == old(metrics)[codecId := Trim(old(metrics)[codecId], timeLimit)]
      ensures s == Summary(Trim(old(metrics)[codecId], timeLimit))
    {
      var codecMetrics := TrimFront(metrics[codecId], timeLimit);
      metrics := metrics[codecId := codecMetrics];
      s := Summarise(codecMetrics);
    }
  }
}
