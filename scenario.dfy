/**
 * What a run implies for particular codecs and setups: the latency and the
 * channel error of every raw-codec delivery, where each codec stands after
 * its packets, and the packet count of the two-codec end-to-end setup.
 */
module Scenarios {
  import opened Options
  import opened Converters
  import opened RawCodecs
  import opened DeltaCodecs
  import opened LinkPackets
  import opened Simulation

  /** The number of deliveries of codec `c`. */
  function CountOf(ds: seq<Delivery>, c: nat): (n: nat)
    ensures n <= |ds|
  {
    if ds == [] then 0
    else CountOf(ds[..|ds| - 1], c) + (if ds[|ds| - 1].codecId == c then 1 else 0)
  }

  /** A delivery other than the last is what the engine computes in the record without the last. */
  lemma DeliveredPrefix(codecs: seq<Codec>, source: Source, bitrate: int, initial: seq<Ends>,
                        ds: seq<Delivery>, k: nat)
    requires bitrate != 0 && |initial| == |codecs| && k + 1 < |ds|
    requires Delivered(codecs, source, bitrate, initial, ds, k)
    ensures Delivered(codecs, source, bitrate, initial, ds[..|ds| - 1], k)
  {
    var p := ds[..|ds| - 1];
    assert p[k] == ds[k];
    assert p[..k] == ds[..k];
  }

  /**
   * A codec sends back to back from position 0, so its last packet finishes
   * at the number of its deliveries times its packet length.
   */
  lemma {:induction false} LastPositionCount(codecs: seq<Codec>, source: Source, bitrate: int,
                                             initial: seq<Ends>, ds: seq<Delivery>, c: nat)
    requires bitrate != 0 && |initial| == |codecs| && c < |codecs|
    requires forall k :: 0 <= k < |ds| ==> Delivered(codecs, source, bitrate, initial, ds, k)
    ensures LastPosition(ds, c) == CountOf(ds, c) * codecs[c].PacketBits()
    decreases |ds|
  {
    if ds != [] {
      var p := ds[..|ds| - 1];
      forall k | 0 <= k < |p|
        ensures Delivered(codecs, source, bitrate, initial, p, k)
      {
        DeliveredPrefix(codecs, source, bitrate, initial, ds, k);
      }
      LastPositionCount(codecs, source, bitrate, initial, p, c);
      if ds[|ds| - 1].codecId == c {
        assert Delivered(codecs, source, bitrate, initial, ds, |ds| - 1);
        MulSucc(CountOf(p, c), codecs[c].PacketBits());
      }
    }
  }

  /** When every delivery finished before a positive bound, so did every codec's last packet. */
  lemma {:induction false} LastPositionBelow(ds: seq<Delivery>, c: nat, bound: int)
    requires bound > 0 && forall k :: 0 <= k < |ds| ==> ds[k].position < bound
    ensures LastPosition(ds, c) < bound
    decreases |ds|
  {
    if ds != [] && ds[|ds| - 1].codecId != c {
      var p := ds[..|ds| - 1];
      assert forall k :: 0 <= k < |p| ==> p[k] == ds[k];
      LastPositionBelow(p, c, bound);
    }
  }

  /** At the default bit rate a packet arrives 50 microseconds per bit of its codec's packet after it was sampled. */
  lemma Latency(codecs: seq<Codec>, source: Source, initial: seq<Ends>, ds: seq<Delivery>, k: nat)
    requires |initial| == |codecs| && k < |ds|
    requires Delivered(codecs, source, DefaultBitrate, initial, ds, k)
    ensures ds[k].codecId < |codecs|
    ensures ds[k].packet.rxTs - ds[k].packet.txTs == 50 * codecs[ds[k].codecId].PacketBits()
  {
    DefaultBitTime(ds[k].start);
    DefaultBitTime(ds[k].position);
  }

  /**
   * A raw codec's receiving end returns the transmitted indices, so each
   * received channel value differs from the sampled one by at most one
   * quantisation step, 1 / (2^bits - 1).
   */
  lemma RawError(codecs: seq<Codec>, source: Source, bitrate: int, initial: seq<Ends>,
                 ds: seq<Delivery>, k: nat, i: nat)
    requires bitrate != 0 && |initial| == |codecs| && k < |ds|
    requires Delivered(codecs, source, bitrate, initial, ds, k)
    requires ds[k].codecId < |codecs| && codecs[ds[k].codecId].Raw?
    requires SourceOk(source, codecs[ds[k].codecId].Channels())
    requires i < codecs[ds[k].codecId].Channels()
    ensures var p := ds[k].packet;
            var m := Steps(codecs[ds[k].codecId].Bits());
            && i < |p.txFd| && i < |p.rxFd|
            && -1.0 / m <= p.rxFd[i] - p.txFd[i] <= 1.0 / m
  {
    var p := ds[k].packet;
    var bits := codecs[ds[k].codecId].Bits();
    assert p.rxId == p.txId;
    assert p.rxFd[i] == I2F(F2I(p.txFd[i], bits), bits);
    QuantizationError(p.txFd[i], bits);
  }

  /** The bound of the end-to-end setup: 3 000 000 microseconds at 20 000 bits per second are 60 000 bits. */
  lemma EndToEndBound()
    ensures DurationInBits(DefaultBitrate, Some(3000000)) == Some(60000)
  {
    var r := DurationInBits(DefaultBitrate, Some(3000000));
    assert (r.value - 1) * 1000000 < 60000000000 <= r.value * 1000000;
  }

  /**
   * A run with a bound stops at the first packet finishing at or past it:
   * that packet started before the bound and is its codec's last.
   */
  lemma StopLast(codecs: seq<Codec>, source: Source, bitrate: int, initial: seq<Ends>, bound: int,
                 cutoff: nat, ds: seq<Delivery>)
    requires bitrate != 0 && |initial| == |codecs| && bound > 0
    requires Stopped(Some(bound), cutoff, ds)
    requires Delivered(codecs, source, bitrate, initial, ds, |ds| - 1)
    ensures var d := ds[|ds| - 1];
            && d.codecId < |codecs| && d.start < bound <= d.position
            && LastPosition(ds, d.codecId) == d.position
            && d.position == d.start + codecs[d.codecId].PacketBits()
            && LastFinish(ds) == d.position && LastStart(ds) == d.start
  {
    var p := ds[..|ds| - 1];
    assert forall k :: 0 <= k < |p| ==> p[k] == ds[k];
    LastPositionBelow(p, ds[|ds| - 1].codecId, bound);
  }

  /** When a run with a bound stops, every other codec's last packet finished before the bound. */
  lemma StopOthers(ds: seq<Delivery>, bound: int, cutoff: nat, c: nat)
    requires bound > 0 && Stopped(Some(bound), cutoff, ds)
    ensures c != ds[|ds| - 1].codecId ==> LastPosition(ds, c) < bound
  {
    var p := ds[..|ds| - 1];
    assert forall k :: 0 <= k < |p| ==> p[k] == ds[k];
    LastPositionBelow(p, c, bound);
  }

  /** Every raw delivery of a run at the default bit rate with 4 channels at 10 bits arrives 2000 microseconds after it was sampled. */
  lemma RawLatencies(codecs: seq<Codec>, source: Source, initial: seq<Ends>, ds: seq<Delivery>, c: nat)
    requires |initial| == |codecs| && c < |codecs| && codecs[c] == Raw(RawCodec(4, 10))
    requires forall k :: 0 <= k < |ds| ==> Delivered(codecs, source, DefaultBitrate, initial, ds, k)
    ensures forall k :: 0 <= k < |ds| && ds[k].codecId == c ==> ds[k].packet.rxTs - ds[k].packet.txTs == 2000
  {
    forall k | 0 <= k < |ds| && ds[k].codecId == c
      ensures ds[k].packet.rxTs - ds[k].packet.txTs == 2000
    {
      Latency(codecs, source, initial, ds, k);
    }
  }

  /**
   * The end-to-end setup: a delta codec of 4 channels at 8 delta bits
   * (32-bit packets) and a raw codec of 4 channels at 10 bits (40-bit
   * packets) share the link at the default bit rate for 3 000 000
   * microseconds. Both codecs have a packet finishing at bit 60 000; the raw
   * one started earlier, so it is received first and ends the run. The raw
   * codec delivers exactly 1500 packets, each 2000 microseconds after it
   * was sampled.
   */
  lemma EndToEnd(codecs: seq<Codec>, source: Source, initial: seq<Ends>, cutoff: nat, ds: seq<Delivery>)
    requires |codecs| == 2 && |initial| == 2
    requires codecs[0].Delta? && codecs[0].delta.channels == 4 && codecs[0].delta.deltaBits == 8
    requires codecs[1] == Raw(RawCodec(4, 10))
    requires Run(codecs, source, DefaultBitrate, initial, DurationInBits(DefaultBitrate, Some(3000000)), cutoff, ds)
    ensures |ds| > 0 && ds[|ds| - 1].codecId == 1
    ensures CountOf(ds, 1) == 1500
    ensures forall k :: 0 <= k < |ds| && ds[k].codecId == 1 ==> ds[k].packet.rxTs - ds[k].packet.txTs == 2000
  {
    EndToEndBound();
    assert Delivered(codecs, source, DefaultBitrate, initial, ds, |ds| - 1);
    StopLast(codecs, source, DefaultBitrate, initial, 60000, cutoff, ds);
    var d := ds[|ds| - 1];
    StopOthers(ds, 60000, cutoff, 1);
    RawLatencies(codecs, source, initial, ds, 1);
    LastPositionCount(codecs, source, DefaultBitrate, initial, ds, 0);
    LastPositionCount(codecs, source, DefaultBitrate, initial, ds, 1);
    var n0: int := CountOf(ds, 0);
    var n1: int := CountOf(ds, 1);
    assert codecs[0].PacketBits() == 32 && codecs[1].PacketBits() == 40;
    assert LastPosition(ds, 0) == n0 * 32 && LastPosition(ds, 1) == n1 * 40;
    assert LexLe(d.position, d.start, d.codecId, n1 * 40 + 40, n1 * 40, 1);
    assert d.codecId == 0 ==> d.position == n0 * 32 && d.start + 32 == n0 * 32 && n1 * 40 < 60000;
    assert d.codecId == 1;
    assert d.position == n1 * 40 && d.start == n1 * 40 - 40;
  }

  /**
   * In the end-to-end setup the delta codec's last delivered packet
   * finished at bit 59 968: the packet it sent from there would finish at
   * bit 60 000 too, but started after the raw codec's, so it is never
   * received.
   */
  lemma EndToEndDeltaLast(codecs: seq<Codec>, source: Source, initial: seq<Ends>, cutoff: nat, ds: seq<Delivery>)
    requires |codecs| == 2 && |initial| == 2
    requires codecs[0].Delta? && codecs[0].delta.channels == 4 && codecs[0].delta.deltaBits == 8
    requires codecs[1] == Raw(RawCodec(4, 10))
    requires Run(codecs, source, DefaultBitrate, initial, DurationInBits(DefaultBitrate, Some(3000000)), cutoff, ds)
    ensures LastPosition(ds, 0) == 59968
  {
    EndToEnd(codecs, source, initial, cutoff, ds);
    EndToEndBound();
    StopLast(codecs, source, DefaultBitrate, initial, 60000, cutoff, ds);
    StopOthers(ds, 60000, cutoff, 0);
    LastPositionCount(codecs, source, DefaultBitrate, initial, ds, 0);
    var n0: int := CountOf(ds, 0);
    assert codecs[0].PacketBits() == 32;
    assert LexLe(LastFinish(ds), LastStart(ds), LastId(ds), n0 * 32 + 32, n0 * 32, 0);
    assert LastFinish(ds) == 60000 && LastStart(ds) == 59960 && LastId(ds) == 1;
    assert n0 == 1874;
  }

  /**
   * The end-to-end test runs the same codecs again on a second source. The
   * first run leaves the delta codec with its packet from bit 59 968 (time
   * stamp 2 998 400 microseconds) sent and never received, so the second
   * run starts with the transmitting end ahead of the receiving end by the
   * lead of the first run plus that packet's differences.
   */
  lemma EndToEndLead(codecs: seq<Codec>, source: Source, initial: seq<Ends>, cutoff: nat, ds: seq<Delivery>,
                     ends: seq<Ends>)
    requires |codecs| == 2 && |initial| == 2 && |ends| == 2
    requires codecs[0].Delta? && codecs[0].delta.channels == 4 && codecs[0].delta.deltaBits == 8
    requires codecs[1] == Raw(RawCodec(4, 10))
    requires Run(codecs, source, DefaultBitrate, initial, DurationInBits(DefaultBitrate, Some(3000000)), cutoff, ds)
    requires LeftAfter(codecs, source, DefaultBitrate, initial, ds, ends)
    ensures NextTxId(codecs, source, DefaultBitrate, ds, 0) == F2IVec(source(2998400), codecs[0].Bits())
    ensures ends[0].rx == LastRx(ds, 0, initial[0].rx)
    ensures |ends[0].tx| == |ends[0].rx| == |initial[0].tx| == |initial[0].rx|
               == |NextTxId(codecs, source, DefaultBitrate, ds, 0)|
    ensures var last := AddVec(ends[0].rx, Lead(initial[0]));
            Lead(ends[0]) == AddVec(Lead(initial[0]), Deltas(NextTxId(codecs, source, DefaultBitrate, ds, 0), last, 8))
  {
    EndToEnd(codecs, source, initial, cutoff, ds);
    EndToEndDeltaLast(codecs, source, initial, cutoff, ds);
    DefaultBitTime(59968);
    assert NextTxId(codecs, source, DefaultBitrate, ds, 0) == F2IVec(source(2998400), codecs[0].Bits());
    LeadAfterSent(codecs[0], ends[0], LastRx(ds, 0, initial[0].rx), initial[0], NextTxId(codecs, source, DefaultBitrate, ds, 0));
  }
}
