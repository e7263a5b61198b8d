/**
 * The simulation engine: every codec sends its packets back to back over
 * a shared time line of bit positions. One packet per codec is in flight at
 * any time; the packet that finishes first is received, time-stamped,
 * decoded and handed to every listener, and the same codec starts its next
 * packet at the position where that one finished. A codec therefore never
 * waits for another; the queue only orders the events in time.
 */
module Simulation {
  import opened Options
  import opened Converters
  import opened RawCodecs
  import opened DeltaCodecs
  import opened LinkPackets
  import opened TransmitQueues
  import opened Collectors

  /** A source of channel vectors: the vector to send at a time stamp. */
  type Source = int -> seq<real>

  /** A source whose vectors have `channels` values, each in [-1, 1]. */
  ghost predicate SourceOk(source: Source, channels: nat)
  {
    forall t :: |source(t)| == channels && forall k :: 0 <= k < channels ==> -1.0 <= source(t)[k] <= 1.0
  }

  // ---------------------------------------------------------------------------
  // Codecs
  // ---------------------------------------------------------------------------

  /** The codecs a setup can run. */
  datatype Codec = Raw(raw: RawCodec) | Delta(delta: DeltaCodec)
  {
    function Channels(): nat
    {
      if Raw? then raw.channels else delta.channels
    }

    function Bits(): nat
    {
      if Raw? then raw.bits else delta.bits
    }

    /** The length of every packet the codec sends. */
    function PacketBits(): nat
    {
      if Raw? then raw.channels * raw.bits else delta.channels * delta.deltaBits
    }

    /** The objects the codec updates. */
    ghost function Objects(): set<object>
    {
      if Raw? then {} else {delta, delta.txLast}
    }
  }

  /** What a codec holds between calls: a delta codec's last transmitted and last received vectors. */
  datatype Ends = Ends(tx: seq<int>, rx: seq<int>)

  /**
   * How far a delta codec's transmitting end is ahead of its receiving end,
   * channel by channel. Both ends add the same differences, so a codec keeps
   * the lead it started with; a fresh codec has none, a codec reused after a
   * run that left a packet unreceived has the differences of that packet.
   */
  function Lead(e: Ends): (r: seq<int>)
    requires |e.tx| == |e.rx|
    ensures |r| == |e.rx|
    ensures AddVec(e.rx, r) == e.tx
  {
    var r := seq(|e.rx|, i requires 0 <= i < |e.rx| => e.tx[i] - e.rx[i]);
    assert AddVec(e.rx, r) == e.tx;
    r
  }

  /** Adding two difference vectors in either order gives the same vector. */
  lemma AddVecSwap(a: seq<int>, x: seq<int>, y: seq<int>)
    requires |a| == |x| == |y|
    ensures AddVec(AddVec(a, x), y) == AddVec(AddVec(a, y), x)
  {
    assert forall i :: 0 <= i < |a| ==> AddVec(AddVec(a, x), y)[i] == AddVec(AddVec(a, y), x)[i];
  }

  ghost function StateOf(c: Codec): Ends
    reads c.Objects()
  {
    if c.Raw? then Ends([], []) else Ends(c.delta.txLast[..], c.delta.rxLast)
  }

  /** A codec holding `s` that is ready to send vectors of `channels` values. */
  predicate CodecReady(c: Codec, channels: nat, s: Ends)
  {
    && channels >= 1
    && c.Channels() == channels
    && c.Bits() >= 1
    && (c.Delta? ==> c.delta.deltaBits >= 1 && |s.tx| == channels && |s.rx| == channels)
  }

  /** Every packet a ready codec sends has at least one bit. */
  lemma PacketBitsPositive(c: Codec, channels: nat, s: Ends)
    requires CodecReady(c, channels, s)
    ensures c.PacketBits() >= 1
  {
    if c.Raw? {
      MulMono(c.raw.channels, c.raw.bits);
    } else {
      MulMono(c.delta.channels, c.delta.deltaBits);
    }
  }

  /**
   * Nothing in flight: a delta codec's receiving end last returned `prev`,
   * and its transmitting end is ahead of it by the lead of `e0`, what the
   * codec held before its first packet.
   */
  predicate Settled(c: Codec, s: Ends, prev: seq<int>, e0: Ends)
  {
    c.Delta? ==> |e0.tx| == |e0.rx| == |prev| && s.rx == prev && s.tx == AddVec(prev, Lead(e0))
  }

  /**
   * A packet carrying `txId` has been sent by a codec now holding `s` and
   * not yet received: a delta codec's receiving end last returned `prev`,
   * and its transmitting end, ahead of it by the lead of `e0`, has added
   * the packet's saturated differences. A raw codec holds nothing.
   */
  predicate Sent(c: Codec, s: Ends, prev: seq<int>, e0: Ends, txId: seq<int>)
  {
    c.Delta? ==>
      && |prev| == |txId| == |e0.tx| == |e0.rx|
      && c.delta.deltaBits >= 1
      && s.rx == prev
      && var last := AddVec(prev, Lead(e0));
         s.tx == AddVec(last, Deltas(txId, last, c.delta.deltaBits))
  }

  /** `tx` is the packet in flight of a codec holding `s`, as `Sent` says, and carries the codec's encoding of its vector. */
  predicate InFlight(c: Codec, s: Ends, prev: seq<int>, e0: Ends, tx: TxData)
  {
    && |tx.txId| == c.Channels()
    && |tx.otaData| == c.PacketBits()
    && Sent(c, s, prev, e0, tx.txId)
    && match c
       case Raw(r) => r.Transmit(tx.txId) == Some(tx.otaData)
       case Delta(d) =>
         && |prev| == d.channels > 0
         && tx.otaData == EncodeDeltas(Deltas(tx.txId, AddVec(prev, Lead(e0)), d.deltaBits), d.deltaBits)
  }

  /**
   * What the receiving end returns for a packet carrying `txId`, when it last
   * returned `prev`: the vector itself for the raw codec, and for the delta
   * codec `prev` plus the saturated differences between `txId` and the
   * transmitting end, which is ahead of `prev` by the lead of `e0`.
   */
  function ExpectedRx(c: Codec, prev: seq<int>, e0: Ends, txId: seq<int>): seq<int>
    requires c.Delta? ==> |prev| == |txId| == |e0.tx| == |e0.rx| && c.delta.deltaBits >= 1
  {
    match c
    case Raw(_) => txId
    case Delta(d) => AddVec(prev, Deltas(txId, AddVec(prev, Lead(e0)), d.deltaBits))
  }

  /** _transmit: samples the source at the start's time stamp, quantises and encodes it. */
  method TransmitFor(codec: Codec, codecId: nat, start: int, source: Source, bitrate: int,
                     ghost prev: seq<int>, ghost e0: Ends)
    returns (tx: TxData)
    requires bitrate != 0
    requires CodecReady(codec, codec.Channels(), StateOf(codec)) && SourceOk(source, codec.Channels())
    requires Settled(codec, StateOf(codec), prev, e0)
    modifies codec.Objects()
    ensures CodecReady(codec, codec.Channels(), StateOf(codec))
    ensures InFlight(codec, StateOf(codec), prev, e0, tx)
    ensures tx.codecId == codecId && tx.start == start
    ensures tx.txTs == BitsToTs(start, bitrate)
    ensures tx.txFd == source(tx.txTs)
    ensures tx.txId == F2IVec(tx.txFd, codec.Bits())
  {
    var txTs := BitsToTs(start, bitrate);
    var txFd := source(txTs);
    var txId := F2IVec(txFd, codec.Bits());
    var ota: Bits;
    match codec {
      case Raw(r) =>
        assert forall i :: 0 <= i < |txId| ==> Fits(txId[i], r.bits, false);
        ota := r.Transmit(txId).value;
      case Delta(d) =>
        ota := d.Transmit(txId);
    }
    tx := TxData(codecId, start, txTs, txFd, txId, ota);
  }

  /** _receive: decodes the packet and maps the indices back onto [-1, 1]. */
  method ReceiveFor(codec: Codec, tx: TxData, ghost prev: seq<int>, ghost e0: Ends) returns (rxId: seq<int>, rxFd: seq<real>)
    requires CodecReady(codec, codec.Channels(), StateOf(codec)) && InFlight(codec, StateOf(codec), prev, e0, tx)
    modifies codec.Objects()
    ensures CodecReady(codec, codec.Channels(), StateOf(codec))
    ensures rxId == ExpectedRx(codec, prev, e0, tx.txId)
    ensures Settled(codec, StateOf(codec), rxId, e0) && |rxId| == codec.Channels()
    ensures rxFd == I2FVec(rxId, codec.Bits())
  {
    match codec {
      case Raw(r) =>
        ReceiveTransmit(r, tx.txId);
        rxId := r.Receive(tx.otaData);
      case Delta(d) =>
        ghost var last := AddVec(prev, Lead(e0));
        ghost var delta := Deltas(tx.txId, last, d.deltaBits);
        DecodeEncode(delta, d.deltaBits);
        MulDiv(d.channels, d.deltaBits);
        rxId := d.Receive(tx.otaData);
        AddVecSwap(prev, Lead(e0), delta);
    }
    rxFd := I2FVec(rxId, codec.Bits());
  }

  // ---------------------------------------------------------------------------
  // Listeners
  // ---------------------------------------------------------------------------

  /** The listeners a setup can notify. */
  datatype Listener = Plain(collector: Collector) | Rolling(rolling: RollingStatsCollector)
  {
    ghost function Object(): object
    {
      if Plain? then collector else rolling
    }
  }

  /** What a listener holds: a collector's packets or a rolling collector's metrics. */
  datatype ListenerView = PacketsView(packets: map<nat, seq<LinkPacket>>) | MetricsView(metrics: map<nat, seq<PacketMetric>>)

  ghost function View(l: Listener): (v: ListenerView)
    reads l.Object()
    ensures l.Plain? <==> v.PacketsView?
  {
    match l
    case Plain(c) => PacketsView(c.packets)
    case Rolling(r) => MetricsView(r.metrics)
  }

  /** A listener whose add does not fail: a collector's window, if any, is positive. */
  predicate ListenerReady(l: Listener)
  {
    l.Plain? ==> l.collector.timeLimit.None? || l.collector.timeLimit.value > 0
  }

  /** Listeners that can all be notified, each a different object. */
  ghost predicate ListenersReady(listeners: seq<Listener>)
  {
    && (forall i :: 0 <= i < |listeners| ==> ListenerReady(listeners[i]))
    && (forall i, j :: 0 <= i < j < |listeners| ==> listeners[i].Object() != listeners[j].Object())
  }

  ghost function ListenerObjects(listeners: seq<Listener>): set<object>
  {
    set i | 0 <= i < |listeners| :: listeners[i].Object()
  }

  /** A packet whose error vector is defined: as many received as sent values, at least one. */
  predicate PacketShaped(p: LinkPacket)
  {
    |p.rxFd| == |p.txFd| > 0
  }

  /** What a listener holds after add(codecId, p). */
  function AfterAdd(l: Listener, v: ListenerView, codecId: nat, p: LinkPacket): (r: ListenerView)
    requires ListenerReady(l) && PacketShaped(p) && (l.Plain? <==> v.PacketsView?)
    ensures l.Plain? <==> r.PacketsView?
  {
    match l
    case Plain(c) => PacketsView(CollectorAdd(v.packets, c.timeLimit, codecId, p))
    case Rolling(_) => MetricsView(RollingAdd(v.metrics, codecId, p))
  }

  /** _notify_listeners: every listener, in list order, adds the packet. */
  method NotifyListeners(listeners: seq<Listener>, codecId: nat, packet: LinkPacket)
    requires ListenersReady(listeners) && PacketShaped(packet)
    modifies ListenerObjects(listeners)
    ensures forall i :: 0 <= i < |listeners| ==>
              View(listeners[i]) == AfterAdd(listeners[i], old(View(listeners[i])), codecId, packet)
  {
    for i := 0 to |listeners|
      invariant forall j :: 0 <= j < i ==>
                  View(listeners[j]) == AfterAdd(listeners[j], old(View(listeners[j])), codecId, packet)
      invariant forall j :: i <= j < |listeners| ==> View(listeners[j]) == old(View(listeners[j]))
    {
      assert listeners[i].Object() in ListenerObjects(listeners);
      label before:
      match listeners[i] {
        case Plain(c) => c.Add(codecId, packet);
        case Rolling(r) => r.Add(codecId, packet);
      }
      forall j | 0 <= j < |listeners| && j != i
        ensures View(listeners[j]) == old@before(View(listeners[j]))
      {
        assert listeners[j].Object() != listeners[i].Object();
        match listeners[j] {
          case Plain(c) => assert c.packets == old@before(c.packets);
          case Rolling(r) => assert r.metrics == old@before(r.metrics);
        }
      }
    }
  }

  /** What a listener holds after adding every delivery of `ds`, in order. */
  function ViewAfter(l: Listener, v: ListenerView, ds: seq<Delivery>): (r: ListenerView)
    requires ListenerReady(l) && (l.Plain? <==> v.PacketsView?)
    requires forall k :: 0 <= k < |ds| ==> PacketShaped(ds[k].packet)
    ensures l.Plain? <==> r.PacketsView?
  {
    if ds == [] then v
    else AfterAdd(l, ViewAfter(l, v, ds[..|ds| - 1]), ds[|ds| - 1].codecId, ds[|ds| - 1].packet)
  }

  // ---------------------------------------------------------------------------
  // Deliveries
  // ---------------------------------------------------------------------------

  /** One received packet: its codec, the positions where it started and finished, and its record. */
  datatype Delivery = Delivery(codecId: nat, start: int, position: int, packet: LinkPacket)

  /** Where codec `c`'s last delivered packet finished, or 0 before its first. */
  function LastPosition(ds: seq<Delivery>, c: nat): int
  {
    if ds == [] then 0
    else if ds[|ds| - 1].codecId == c then ds[|ds| - 1].position
    else LastPosition(ds[..|ds| - 1], c)
  }

  /** What codec `c`'s receiving end last returned, or `initial` before its first packet. */
  function LastRx(ds: seq<Delivery>, c: nat, initial: seq<int>): seq<int>
  {
    if ds == [] then initial
    else if ds[|ds| - 1].codecId == c then ds[|ds| - 1].packet.rxId
    else LastRx(ds[..|ds| - 1], c, initial)
  }

  /** Where the last delivery finished and started, and its codec, or 0 before the first. */
  function LastFinish(ds: seq<Delivery>): int
  {
    if ds == [] then 0 else ds[|ds| - 1].position
  }

  function LastStart(ds: seq<Delivery>): int
  {
    if ds == [] then 0 else ds[|ds| - 1].start
  }

  function LastId(ds: seq<Delivery>): nat
  {
    if ds == [] then 0 else ds[|ds| - 1].codecId
  }

  /**
   * (p1, s1, i1) comes no later than (p2, s2, i2): by finishing position,
   * then by starting position, then by codec. Packets that finish and start
   * together come from codecs of equal packet length, which send in
   * lockstep; the engine seeds them in codec order and its stable sort
   * keeps that order.
   */
  predicate LexLe(p1: int, s1: int, i1: nat, p2: int, s2: int, i2: nat)
  {
    p1 < p2 || (p1 == p2 && (s1 < s2 || (s1 == s2 && i1 <= i2)))
  }

  /**
   * Queued packet `x` comes no earlier than the delivery at (p, s, i), and
   * the packet its codec sent before it, which finished where `x` started
   * and was as long, came no later than that delivery.
   */
  predicate Straddles(p: int, s: int, i: nat, x: Entry)
  {
    && LexLe(x.1.start, 2 * x.1.start - x.0, x.1.codecId, p, s, i)
    && LexLe(p, s, i, x.0, x.1.start, x.1.codecId)
  }

  /**
   * Delivery `k` is what the engine computes: its codec's previous packet
   * finished where it started, it was sampled at its start's time stamp,
   * received at its finish's time stamp, and decoded from what the codec's
   * receiving end held after the deliveries before it.
   */
  predicate Delivered(codecs: seq<Codec>, source: Source, bitrate: int, initial: seq<Ends>, ds: seq<Delivery>, k: nat)
    requires bitrate != 0 && |initial| == |codecs| && k < |ds|
  {
    var d := ds[k];
    var c := d.codecId;
    var p := d.packet;
    && c < |codecs|
    && d.start == LastPosition(ds[..k], c)
    && d.position == d.start + codecs[c].PacketBits()
    && |p.otaData| == codecs[c].PacketBits()
    && p.txTs == BitsToTs(d.start, bitrate)
    && p.rxTs == BitsToTs(d.position, bitrate)
    && p.txFd == source(p.txTs)
    && p.txId == F2IVec(p.txFd, codecs[c].Bits())
    && (codecs[c].Delta? ==>
          |LastRx(ds[..k], c, initial[c].rx)| == |p.txId| == |initial[c].tx| == |initial[c].rx| && codecs[c].delta.deltaBits >= 1)
    && p.rxId == ExpectedRx(codecs[c], LastRx(ds[..k], c, initial[c].rx), initial[c], p.txId)
    && codecs[c].Bits() >= 1
    && p.rxFd == I2FVec(p.rxId, codecs[c].Bits())
  }

  // ---------------------------------------------------------------------------

  // ---------------------------------------------------------------------------
  // The codecs of a setup and the queue of packets in flight
  // ---------------------------------------------------------------------------

  ghost function CodecObjects(codecs: seq<Codec>): set<object>
  {
    set i, o | 0 <= i < |codecs| && o in codecs[i].Objects() :: o
  }

  /** Different codecs update different objects. */
  ghost predicate Separate(codecs: seq<Codec>)
  {
    forall i, j :: 0 <= i < |codecs| && 0 <= j < |codecs| && i != j ==> codecs[i].Objects() !! codecs[j].Objects()
  }

  /** `st` is what the codecs hold, codec by codec. */
  ghost predicate Current(codecs: seq<Codec>, st: seq<Ends>)
    reads CodecObjects(codecs)
  {
    |st| == |codecs| && forall i :: 0 <= i < |codecs| ==> StateOf(codecs[i]) == st[i]
  }

  /** Every codec, holding its part of `st`, is ready for `channels` values. */
  predicate AllReady(codecs: seq<Codec>, channels: nat, st: seq<Ends>)
    requires |st| == |codecs|
  {
    forall i :: 0 <= i < |codecs| ==> CodecReady(codecs[i], channels, st[i])
  }

  /**
   * What the codecs hold before the first packet: delta codec `i` holds
   * `initial[i]`, whose two ends need not agree, and a raw codec holds
   * nothing. Either way the codec is settled, its receiving end on the
   * vector it starts from.
   */
  function Initial(codecs: seq<Codec>, initial: seq<Ends>): (st: seq<Ends>)
    requires |initial| == |codecs|
    ensures |st| == |codecs|
    ensures forall i :: 0 <= i < |codecs| && codecs[i].Delta? ==> st[i] == initial[i]
    ensures forall i :: 0 <= i < |codecs| && |initial[i].tx| == |initial[i].rx| ==>
              Settled(codecs[i], st[i], initial[i].rx, initial[i])
  {
    seq(|codecs|, i requires 0 <= i < |codecs| => if codecs[i].Raw? then Ends([], []) else initial[i])
  }

  /**
   * A setup the engine can run: at least one codec, all for the source's
   * channel count, each updating its own objects, each ready when both of
   * its ends hold `initial`.
   */
  ghost predicate SetupReady(codecs: seq<Codec>, source: Source, initial: seq<Ends>)
  {
    && |codecs| >= 1
    && |initial| == |codecs|
    && Separate(codecs)
    && SourceOk(source, codecs[0].Channels())
    && AllReady(codecs, codecs[0].Channels(), Initial(codecs, initial))
  }

  /** The codecs of a queue's entries. */
  function Ids(q: seq<Entry>): set<nat>
  {
    set x | x in q :: x.1.codecId
  }

  /** An entry of codec `c`, if `c` has one. */
  ghost function IdWitness(q: seq<Entry>, c: nat): (x: Entry)
    requires c in Ids(q)
    ensures x in q && x.1.codecId == c
  {
    var x :| x in q && x.1.codecId == c; x
  }

  predicate DistinctIds(q: seq<Entry>)
  {
    forall i, j :: 0 <= i < j < |q| ==> q[i].1.codecId != q[j].1.codecId
  }

  predicate LexSorted(q: seq<Entry>)
  {
    forall i, j :: 0 <= i < j < |q| ==> LexLe(q[i].0, q[i].1.start, q[i].1.codecId, q[j].0, q[j].1.start, q[j].1.codecId)
  }

  /**
   * A queued packet of codec `c`, which holds `st[c]`: sent from where `c`'s
   * last packet finished, and not yet received.
   */
  predicate Pending(codecs: seq<Codec>, st: seq<Ends>, source: Source, bitrate: int, initial: seq<Ends>,
                    ds: seq<Delivery>, e: Entry)
    requires bitrate != 0 && |initial| == |codecs| && |st| == |codecs|
  {
    var tx := e.1;
    var c := tx.codecId;
    && c < |codecs|
    && e.0 == tx.start + |tx.otaData|
    && tx.start == LastPosition(ds, c)
    && tx.txTs == BitsToTs(tx.start, bitrate)
    && tx.txFd == source(tx.txTs)
    && tx.txId == F2IVec(tx.txFd, codecs[c].Bits())
    && InFlight(codecs[c], st[c], LastRx(ds, c, initial[c].rx), initial[c], tx)
  }

  /** Every entry of `q` is pending after deliveries `ds`. */
  predicate AllPending(codecs: seq<Codec>, st: seq<Ends>, source: Source, bitrate: int, initial: seq<Ends>,
                       ds: seq<Delivery>, q: seq<Entry>)
    requires bitrate != 0 && |initial| == |codecs| && |st| == |codecs|
  {
    forall x :: x in q ==> Pending(codecs, st, source, bitrate, initial, ds, x)
  }

  /**
   * The packets in flight after deliveries `ds`: one per codec, each sent
   * from where its codec's last packet finished, ordered by finish and then
   * start, none coming before the last delivery.
   */
  predicate QueueOk(codecs: seq<Codec>, st: seq<Ends>, source: Source, bitrate: int, initial: seq<Ends>,
                    ds: seq<Delivery>, q: seq<Entry>)
    requires bitrate != 0 && |initial| == |codecs| && |st| == |codecs|
  {
    && AllPending(codecs, st, source, bitrate, initial, ds, q)
    && (forall x :: x in q ==> Straddles(LastFinish(ds), LastStart(ds), LastId(ds), x))
    && (forall c :: 0 <= c < |codecs| ==> c in Ids(q))
    && DistinctIds(q)
    && LexSorted(q)
  }

  /** The entries after an insertion are the old ones and the new one. */
  lemma InsertMembers(q: seq<Entry>, e: Entry)
    ensures forall x :: x in InsertByKey(q, e) <==> x in q || x == e
    ensures Ids(InsertByKey(q, e)) == Ids(q) + {e.1.codecId}
  {
    InsertByKeyPermutes(q, e);
    var r := InsertByKey(q, e);
    assert forall x :: x in r <==> x in multiset(r);
    assert forall x :: x in q <==> x in multiset(q);
  }

  /** Inserting a packet of a codec not yet queued keeps one entry per codec. */
  lemma InsertDistinct(q: seq<Entry>, e: Entry)
    requires DistinctIds(q) && e.1.codecId !in Ids(q)
    ensures DistinctIds(InsertByKey(q, e))
  {
    var k := InsertionPoint(q, e.0);
    var r := InsertByKey(q, e);
    forall i, j | 0 <= i < j < |r|
      ensures r[i].1.codecId != r[j].1.codecId
    {
      InsertByKeyAt(q, e, i);
      InsertByKeyAt(q, e, j);
      if i == k {
        assert q[j - 1] in q;
      } else if j == k {
        assert q[i] in q;
      }
    }
  }

  /**
   * Inserting a packet that started no earlier than any queued packet with
   * the same finish keeps the queue ordered by finish, then start.
   */
  lemma InsertLexSorted(q: seq<Entry>, e: Entry)
    requires LexSorted(q)
    requires forall x :: x in q && x.0 == e.0 ==> LexLe(x.0, x.1.start, x.1.codecId, e.0, e.1.start, e.1.codecId)
    ensures LexSorted(InsertByKey(q, e))
  {
    var k := InsertionPoint(q, e.0);
    var r := InsertByKey(q, e);
    forall i, j | 0 <= i < j < |r|
      ensures LexLe(r[i].0, r[i].1.start, r[i].1.codecId, r[j].0, r[j].1.start, r[j].1.codecId)
    {
      InsertByKeyAt(q, e, i);
      InsertByKeyAt(q, e, j);
      if j == k {
        assert q[i] in q;
      } else if i == k && j - 1 > k {
        assert LexLe(q[k].0, q[k].1.start, q[k].1.codecId, q[j - 1].0, q[j - 1].1.start, q[j - 1].1.codecId);
      }
    }
  }

  /**
   * A codec with no entry in the queue can change what it holds, and deliver
   * a packet, without disturbing the entries of the others.
   */
  lemma PendingKept(codecs: seq<Codec>, st: seq<Ends>, s: Ends, source: Source, bitrate: int, initial: seq<Ends>,
                    ds: seq<Delivery>, more: seq<Delivery>, c: nat, q: seq<Entry>)
    requires bitrate != 0 && |initial| == |codecs| && |st| == |codecs| && c < |codecs|
    requires AllPending(codecs, st, source, bitrate, initial, ds, q) && c !in Ids(q)
    requires forall k :: 0 <= k < |more| ==> more[k].codecId == c
    ensures AllPending(codecs, st[c := s], source, bitrate, initial, ds + more, q)
  {
    forall x | x in q
      ensures Pending(codecs, st[c := s], source, bitrate, initial, ds + more, x)
    {
      var i := x.1.codecId;
      assert i != c;
      OtherCodecUnaffected(ds, more, c, i, initial[i].rx);
    }
  }

  /** Deliveries of codec `c` leave where another codec stands unchanged. */
  lemma {:induction false} OtherCodecUnaffected(ds: seq<Delivery>, more: seq<Delivery>, c: nat, i: nat, init: seq<int>)
    requires i != c && forall k :: 0 <= k < |more| ==> more[k].codecId == c
    ensures LastPosition(ds + more, i) == LastPosition(ds, i)
    ensures LastRx(ds + more, i, init) == LastRx(ds, i, init)
  {
    if more != [] {
      var r := ds + more;
      assert r[..|r| - 1] == ds + more[..|more| - 1];
      OtherCodecUnaffected(ds, more[..|more| - 1], c, i, init);
    } else {
      assert ds + more == ds;
    }
  }

  /** The part of the remaining bit budget a queued packet stands for. */
  function Cost(e: Entry, bound: int): nat
  {
    if e.0 < bound then bound - e.0 else 0
  }

  /** The bits between each queued packet's finish and the bound, summed; it bounds the remaining events. */
  function Budget(q: seq<Entry>, bound: int): nat
  {
    if q == [] then 0 else Cost(q[0], bound) + Budget(q[1..], bound)
  }

  lemma {:induction false} BudgetInsert(q: seq<Entry>, e: Entry, bound: int)
    ensures Budget(InsertByKey(q, e), bound) == Budget(q, bound) + Cost(e, bound)
  {
    if q != [] && q[0].0 <= e.0 {
      BudgetInsert(q[1..], e, bound);
      assert InsertByKey(q, e)[1..] == InsertByKey(q[1..], e);
    }
  }

  // ---------------------------------------------------------------------------
  // simulate
  // ---------------------------------------------------------------------------

  /** Replacing one codec's ends by ends it is ready with keeps every codec ready. */
  lemma ReadyUpdate(codecs: seq<Codec>, channels: nat, st: seq<Ends>, c: nat, s: Ends)
    requires |st| == |codecs| && c < |codecs|
    requires AllReady(codecs, channels, st) && CodecReady(codecs[c], channels, s)
    ensures AllReady(codecs, channels, st[c := s])
  {
  }

  /**
   * _transmit on the heap: codec `codecId` samples, quantises and encodes;
   * only that codec's state changes.
   */
  method TransmitCodec(codecs: seq<Codec>, codecId: nat, start: int, source: Source, bitrate: int,
                       ghost channels: nat, ghost prev: seq<int>, ghost e0: Ends, ghost st: seq<Ends>)
    returns (tx: TxData, ghost st1: seq<Ends>)
    requires bitrate != 0 && codecId < |codecs|
    requires Separate(codecs) && SourceOk(source, channels)
    requires Current(codecs, st) && AllReady(codecs, channels, st)
    requires Settled(codecs[codecId], st[codecId], prev, e0)
    modifies codecs[codecId].Objects()
    ensures tx.codecId == codecId && tx.start == start
    ensures tx.txTs == BitsToTs(start, bitrate) && tx.txFd == source(tx.txTs)
    ensures tx.txId == F2IVec(tx.txFd, codecs[codecId].Bits())
    ensures Current(codecs, st1) && |st1| == |st| && st1 == st[codecId := st1[codecId]]
    ensures AllReady(codecs, channels, st1)
    ensures InFlight(codecs[codecId], st1[codecId], prev, e0, tx)
  {
    assert StateOf(codecs[codecId]) == st[codecId] && CodecReady(codecs[codecId], channels, st[codecId]);
    tx := TransmitFor(codecs[codecId], codecId, start, source, bitrate, prev, e0);
    st1 := st[codecId := StateOf(codecs[codecId])];
    ReadyUpdate(codecs, channels, st, codecId, st1[codecId]);
    forall i | 0 <= i < |codecs| && i != codecId
      ensures StateOf(codecs[i]) == st1[i]
    {
      assert codecs[i].Objects() !! codecs[codecId].Objects();
      if codecs[i].Delta? {
        assert codecs[i].delta.rxLast == old(codecs[i].delta.rxLast);
        assert codecs[i].delta.txLast[..] == old(codecs[i].delta.txLast[..]);
      }
    }
  }

  /** _transmit followed by queue.transmit: the packet codec `codecId` sends joins the queue. */
  method SendFrom(codecs: seq<Codec>, codecId: nat, start: int, source: Source, bitrate: int,
                  ghost channels: nat, ghost prev: seq<int>, ghost e0: Ends, ghost st: seq<Ends>, queue: TransmitQueue)
    returns (ghost e: Entry, ghost st1: seq<Ends>)
    requires bitrate != 0 && codecId < |codecs|
    requires Separate(codecs) && SourceOk(source, channels)
    requires Current(codecs, st) && AllReady(codecs, channels, st)
    requires Settled(codecs[codecId], st[codecId], prev, e0)
    requires queue.Valid() && queue !in CodecObjects(codecs)
    modifies queue, codecs[codecId].Objects()
    ensures queue.Valid() && queue.entries == InsertByKey(old(queue.entries), e)
    ensures e.1.codecId == codecId && e.1.start == start && e.0 == start + |e.1.otaData|
    ensures e.1.txTs == BitsToTs(start, bitrate) && e.1.txFd == source(e.1.txTs)
    ensures e.1.txId == F2IVec(e.1.txFd, codecs[codecId].Bits())
    ensures Current(codecs, st1) && |st1| == |st| && st1 == st[codecId := st1[codecId]]
    ensures AllReady(codecs, channels, st1)
    ensures InFlight(codecs[codecId], st1[codecId], prev, e0, e.1)
  {
    assert codecs[codecId].Objects() <= CodecObjects(codecs);
    var tx;
    tx, st1 := TransmitCodec(codecs, codecId, start, source, bitrate, channels, prev, e0, st);
    e := (tx.start + |tx.otaData|, tx);
    label sent:
    queue.Transmit(tx);
    forall i | 0 <= i < |codecs|
      ensures StateOf(codecs[i]) == st1[i]
    {
      assert codecs[i].Objects() <= CodecObjects(codecs);
      if codecs[i].Delta? {
        assert codecs[i].delta.rxLast == old@sent(codecs[i].delta.rxLast);
        assert codecs[i].delta.txLast[..] == old@sent(codecs[i].delta.txLast[..]);
      }
    }
  }

  /** The packet just sent is pending, and the ones already queued stay pending. */
  lemma SentPending(codecs: seq<Codec>, st: seq<Ends>, st1: seq<Ends>, channels: nat, source: Source, bitrate: int,
                    initial: seq<Ends>, ds: seq<Delivery>, q: seq<Entry>, e: Entry)
    requires bitrate != 0 && |initial| == |codecs| && |st| == |codecs| && e.1.codecId < |codecs|
    requires AllPending(codecs, st, source, bitrate, initial, ds, q) && e.1.codecId !in Ids(q)
    requires |st1| == |st| && st1 == st[e.1.codecId := st1[e.1.codecId]]
    requires CodecReady(codecs[e.1.codecId], channels, st1[e.1.codecId])
    requires e.1.start == LastPosition(ds, e.1.codecId) && e.0 == e.1.start + |e.1.otaData|
    requires e.1.txTs == BitsToTs(e.1.start, bitrate) && e.1.txFd == source(e.1.txTs)
    requires e.1.txId == F2IVec(e.1.txFd, codecs[e.1.codecId].Bits())
    requires InFlight(codecs[e.1.codecId], st1[e.1.codecId], LastRx(ds, e.1.codecId, initial[e.1.codecId].rx), initial[e.1.codecId], e.1)
    ensures e.0 == e.1.start + codecs[e.1.codecId].PacketBits() && e.0 > e.1.start
    ensures AllPending(codecs, st1, source, bitrate, initial, ds, InsertByKey(q, e))
  {
    var c := e.1.codecId;
    PacketBitsPositive(codecs[c], channels, st1[c]);
    PendingKept(codecs, st, st1[c], source, bitrate, initial, ds, [], c, q);
    assert ds + [] == ds;
    assert AllPending(codecs, st1, source, bitrate, initial, ds, q);
    assert Pending(codecs, st1, source, bitrate, initial, ds, e);
    InsertMembers(q, e);
    forall x | x in InsertByKey(q, e)
      ensures Pending(codecs, st1, source, bitrate, initial, ds, x)
    {
      if x != e {
        assert x in q;
      }
    }
  }

  /**
   * _transmit followed by queue.transmit: codec `codecId`, which has nothing
   * in flight, sends its next packet from where its last one finished.
   */
  method Enqueue(codecs: seq<Codec>, codecId: nat, start: int, source: Source, bitrate: int,
                 ghost channels: nat, ghost initial: seq<Ends>, ghost ds: seq<Delivery>, ghost st: seq<Ends>,
                 queue: TransmitQueue)
    returns (ghost e: Entry, ghost st1: seq<Ends>)
    requires bitrate != 0 && |initial| == |codecs| && codecId < |codecs|
    requires Separate(codecs) && SourceOk(source, channels)
    requires Current(codecs, st) && AllReady(codecs, channels, st)
    requires start == LastPosition(ds, codecId) && Settled(codecs[codecId], st[codecId], LastRx(ds, codecId, initial[codecId].rx), initial[codecId])
    requires queue.Valid() && queue !in CodecObjects(codecs) && codecId !in Ids(queue.entries)
    requires AllPending(codecs, st, source, bitrate, initial, ds, queue.entries)
    modifies queue, codecs[codecId].Objects()
    ensures queue.Valid() && queue.entries == InsertByKey(old(queue.entries), e)
    ensures e.1.codecId == codecId && e.1.start == start && e.0 == start + codecs[codecId].PacketBits() && e.0 > start
    ensures Current(codecs, st1) && |st1| == |st| && st1 == st[codecId := st1[codecId]]
    ensures AllReady(codecs, channels, st1)
    ensures AllPending(codecs, st1, source, bitrate, initial, ds, queue.entries)
  {
    ghost var q := queue.entries;
    e, st1 := SendFrom(codecs, codecId, start, source, bitrate, channels, LastRx(ds, codecId, initial[codecId].rx), initial[codecId], st, queue);
    SentPending(codecs, st, st1, channels, source, bitrate, initial, ds, q, e);
  }

  /** The queue after codecs 0 .. n-1 have each sent their first packet from position 0. */
  predicate Seeded(q: seq<Entry>, n: nat)
  {
    && (forall x :: x in q ==> x.1.codecId < n && x.1.start == 0 && x.0 >= 1)
    && (forall c :: 0 <= c < n ==> c in Ids(q))
    && DistinctIds(q)
    && LexSorted(q)
  }

  /** Codec `n`'s first packet extends a queue seeded by codecs 0 .. n-1. */
  lemma SeedStep(q: seq<Entry>, e: Entry, n: nat)
    requires Seeded(q, n)
    requires e.1.codecId == n && e.1.start == 0 && e.0 > 0
    ensures Seeded(InsertByKey(q, e), n + 1)
  {
    var r := InsertByKey(q, e);
    InsertMembers(q, e);
    InsertDistinct(q, e);
    InsertLexSorted(q, e);
    forall c | 0 <= c <= n
      ensures c in Ids(r)
    {
      if c < n {
        assert c in Ids(q);
      }
    }
  }

  /** Once every codec has sent its first packet, the queue is in order before any delivery. */
  lemma SeededOk(codecs: seq<Codec>, st: seq<Ends>, source: Source, bitrate: int, initial: seq<Ends>, q: seq<Entry>)
    requires bitrate != 0 && |initial| == |codecs| && |st| == |codecs|
    requires AllPending(codecs, st, source, bitrate, initial, [], q) && Seeded(q, |codecs|)
    ensures QueueOk(codecs, st, source, bitrate, initial, [], q)
  {
  }

  /** Codec `c`, untouched so far, is settled on what it started with. */
  lemma SeedSettled(codecs: seq<Codec>, st: seq<Ends>, initial: seq<Ends>, c: nat, channels: nat)
    requires |initial| == |codecs| && c < |codecs| == |st| && st[c] == Initial(codecs, initial)[c]
    requires CodecReady(codecs[c], channels, st[c])
    ensures Settled(codecs[c], st[c], LastRx([], c, initial[c].rx), initial[c])
  {
  }

  /** The seeding loop of simulate: every codec, in order, sends its first packet from position 0. */
  method SeedQueue(codecs: seq<Codec>, source: Source, bitrate: int, ghost initial: seq<Ends>)
    returns (queue: TransmitQueue, ghost st: seq<Ends>)
    requires bitrate != 0 && SetupReady(codecs, source, initial) && Current(codecs, Initial(codecs, initial))
    modifies CodecObjects(codecs)
    ensures fresh(queue) && queue.Valid()
    ensures Current(codecs, st) && AllReady(codecs, codecs[0].Channels(), st)
    ensures QueueOk(codecs, st, source, bitrate, initial, [], queue.entries)
  {
    ghost var channels := codecs[0].Channels();
    st := Initial(codecs, initial);
    queue := new TransmitQueue();
    assert queue !in CodecObjects(codecs);
    for codecId := 0 to |codecs|
      invariant queue.Valid()
      invariant Current(codecs, st) && AllReady(codecs, channels, st)
      invariant forall c :: codecId <= c < |codecs| ==> st[c] == Initial(codecs, initial)[c]
      invariant AllPending(codecs, st, source, bitrate, initial, [], queue.entries)
      invariant Seeded(queue.entries, codecId)
    {
      ghost var q := queue.entries;
      ghost var e;
      SeedSettled(codecs, st, initial, codecId, channels);
      e, st := Enqueue(codecs, codecId, 0, source, bitrate, channels, initial, [], st, queue);
      SeedStep(q, e, codecId);
    }
    SeededOk(codecs, st, source, bitrate, initial, queue.entries);
  }

  /** Removing the head keeps one entry per codec and the order. */
  lemma TailOrdered(q: seq<Entry>)
    requires |q| > 0 && DistinctIds(q) && LexSorted(q)
    ensures DistinctIds(q[1..]) && LexSorted(q[1..])
  {
  }

  /** The head of the queue is the pending packet received next. */
  lemma PopHead(codecs: seq<Codec>, st: seq<Ends>, source: Source, bitrate: int, initial: seq<Ends>,
                ds: seq<Delivery>, q: seq<Entry>)
    requires bitrate != 0 && |initial| == |codecs| && |st| == |codecs| && |codecs| >= 1
    requires QueueOk(codecs, st, source, bitrate, initial, ds, q)
    ensures |q| > 0 && Pending(codecs, st, source, bitrate, initial, ds, q[0])
    ensures LexLe(LastFinish(ds), LastStart(ds), LastId(ds), q[0].0, q[0].1.start, q[0].1.codecId)
  {
    assert 0 in Ids(q);
    assert q[0] in q;
  }

  /**
   * The entries behind the head stay pending, come no earlier than the head,
   * and hold every other codec once.
   */
  lemma PopRest(codecs: seq<Codec>, st: seq<Ends>, source: Source, bitrate: int, initial: seq<Ends>,
                ds: seq<Delivery>, q: seq<Entry>)
    requires bitrate != 0 && |initial| == |codecs| && |st| == |codecs| && |q| > 0
    requires QueueOk(codecs, st, source, bitrate, initial, ds, q)
    ensures AllPending(codecs, st, source, bitrate, initial, ds, q[1..])
    ensures forall x :: x in q[1..] ==> Straddles(q[0].0, q[0].1.start, q[0].1.codecId, x)
    ensures q[0].1.codecId !in Ids(q[1..])
    ensures DistinctIds(q[1..]) && LexSorted(q[1..])
  {
    assert q[0] in q;
    TailOrdered(q);
    var r := q[1..];
    forall x | x in r
      ensures x in q && x.1.codecId != q[0].1.codecId
      ensures LexLe(q[0].0, q[0].1.start, q[0].1.codecId, x.0, x.1.start, x.1.codecId)
    {
      var j :| 0 <= j < |r| && r[j] == x;
      assert q[j + 1] == x;
    }
  }

  lemma PopIds(codecs: seq<Codec>, q: seq<Entry>)
    requires |q| > 0 && forall c :: 0 <= c < |codecs| ==> c in Ids(q)
    ensures forall c :: 0 <= c < |codecs| && c != q[0].1.codecId ==> c in Ids(q[1..])
  {
    var r := q[1..];
    forall c | 0 <= c < |codecs| && c != q[0].1.codecId
      ensures c in Ids(r)
    {
      var x := IdWitness(q, c);
      var j :| 0 <= j < |q| && q[j] == x;
      assert j != 0 && r[j - 1] == x;
    }
  }

  /**
   * _receive on the heap: codec `c` decodes the packet it has in flight;
   * only that codec's state changes.
   */
  method ReceiveCodec(codecs: seq<Codec>, c: nat, tx: TxData, ghost channels: nat, ghost prev: seq<int>,
                      ghost e0: Ends, ghost st: seq<Ends>)
    returns (rxId: seq<int>, rxFd: seq<real>, ghost st1: seq<Ends>)
    requires c < |codecs| && Separate(codecs)
    requires Current(codecs, st) && AllReady(codecs, channels, st)
    requires InFlight(codecs[c], st[c], prev, e0, tx)
    modifies codecs[c].Objects()
    ensures rxId == ExpectedRx(codecs[c], prev, e0, tx.txId)
    ensures rxFd == I2FVec(rxId, codecs[c].Bits())
    ensures Current(codecs, st1) && |st1| == |st| && st1 == st[c := st1[c]]
    ensures AllReady(codecs, channels, st1)
    ensures Settled(codecs[c], st1[c], rxId, e0)
  {
    rxId, rxFd := ReceiveFor(codecs[c], tx, prev, e0);
    st1 := st[c := StateOf(codecs[c])];
    ReadyUpdate(codecs, channels, st, c, st1[c]);
    forall i | 0 <= i < |codecs| && i != c
      ensures StateOf(codecs[i]) == st1[i]
    {
      assert codecs[i].Objects() !! codecs[c].Objects();
      if codecs[i].Delta? {
        assert codecs[i].delta.rxLast == old(codecs[i].delta.rxLast);
        assert codecs[i].delta.txLast[..] == old(codecs[i].delta.txLast[..]);
      }
    }
  }

  /**
   * _receive on the head of the queue: pops it, decodes it on its codec and
   * builds the link packet; only that codec's state changes.
   */
  method ReceiveHead(codecs: seq<Codec>, bitrate: int, ghost channels: nat, ghost prev: seq<int>, ghost e0: Ends,
                     ghost st: seq<Ends>, queue: TransmitQueue)
    returns (d: Delivery, ghost st1: seq<Ends>)
    requires bitrate != 0 && Separate(codecs)
    requires Current(codecs, st) && AllReady(codecs, channels, st)
    requires queue.Valid() && queue !in CodecObjects(codecs)
    requires |queue.entries| > 0 && queue.entries[0].1.codecId < |codecs|
    requires InFlight(codecs[queue.entries[0].1.codecId], st[queue.entries[0].1.codecId], prev, e0, queue.entries[0].1)
    modifies queue, CodecObjects(codecs)
    ensures queue.Valid() && queue.entries == old(queue.entries)[1..]
    ensures d.codecId == old(queue.entries)[0].1.codecId && d.start == old(queue.entries)[0].1.start
    ensures d.position == old(queue.entries)[0].0
    ensures d.packet.rxId == ExpectedRx(codecs[d.codecId], prev, e0, old(queue.entries)[0].1.txId)
    ensures d.packet == MakeLinkPacket(old(queue.entries)[0].1, BitsToTs(d.position, bitrate), d.packet.rxId,
                                       I2FVec(d.packet.rxId, codecs[d.codecId].Bits()))
    ensures Current(codecs, st1) && |st1| == |st| && st1 == st[d.codecId := st1[d.codecId]]
    ensures AllReady(codecs, channels, st1)
    ensures Settled(codecs[d.codecId], st1[d.codecId], d.packet.rxId, e0)
  {
    var e := queue.Next();
    var position := e.0;
    var tx := e.1;
    var c := tx.codecId;
    var rxTs := BitsToTs(position, bitrate);
    assert codecs[c].Objects() <= CodecObjects(codecs);
    forall i | 0 <= i < |codecs|
      ensures StateOf(codecs[i]) == st[i]
    {
      assert codecs[i].Objects() <= CodecObjects(codecs);
      if codecs[i].Delta? {
        assert codecs[i].delta.rxLast == old(codecs[i].delta.rxLast);
        assert codecs[i].delta.txLast[..] == old(codecs[i].delta.txLast[..]);
      }
    }
    var rxId, rxFd;
    rxId, rxFd, st1 := ReceiveCodec(codecs, c, tx, channels, prev, e0, st);
    var packet := MakeLinkPacket(tx, rxTs, rxId, rxFd);
    d := Delivery(c, tx.start, position, packet);
  }

  /** The packet received from the head of the queue is the delivery the engine computes next. */
  lemma DeliveredHead(codecs: seq<Codec>, st: seq<Ends>, source: Source, bitrate: int,
                      initial: seq<Ends>, ds: seq<Delivery>, e: Entry, d: Delivery)
    requires bitrate != 0 && |initial| == |codecs| && |st| == |codecs| && |codecs| >= 1
    requires Pending(codecs, st, source, bitrate, initial, ds, e)
    requires d.codecId == e.1.codecId && CodecReady(codecs[d.codecId], codecs[0].Channels(), st[d.codecId])
    requires d.start == e.1.start && d.position == e.0
    requires d.packet.rxId == ExpectedRx(codecs[d.codecId], LastRx(ds, d.codecId, initial[d.codecId].rx), initial[d.codecId], e.1.txId)
    requires d.packet == MakeLinkPacket(e.1, BitsToTs(d.position, bitrate), d.packet.rxId,
                                        I2FVec(d.packet.rxId, codecs[d.codecId].Bits()))
    ensures Delivered(codecs, source, bitrate, initial, ds + [d], |ds|)
    ensures PacketShaped(d.packet)
  {
    assert (ds + [d])[..|ds|] == ds;
  }

  /**
   * Receiving the head of a well-ordered queue leaves the rest of it
   * pending, no earlier than what was received, one entry per other codec.
   */
  lemma ReceiveKeepsQueue(codecs: seq<Codec>, st: seq<Ends>, st1: seq<Ends>, source: Source, bitrate: int,
                          initial: seq<Ends>, ds: seq<Delivery>, q: seq<Entry>, d: Delivery)
    requires bitrate != 0 && |initial| == |codecs| && |st| == |codecs|
    requires |q| > 0 && d.codecId == q[0].1.codecId && d.start == q[0].1.start && d.position == q[0].0
    requires d.codecId < |codecs| && |st1| == |st| && st1 == st[d.codecId := st1[d.codecId]]
    requires QueueOk(codecs, st, source, bitrate, initial, ds, q)
    ensures AllPending(codecs, st1, source, bitrate, initial, ds + [d], q[1..])
    ensures forall x :: x in q[1..] ==> Straddles(d.position, d.start, d.codecId, x)
    ensures d.codecId !in Ids(q[1..])
    ensures forall c :: 0 <= c < |codecs| && c != d.codecId ==> c in Ids(q[1..])
    ensures DistinctIds(q[1..]) && LexSorted(q[1..])
  {
    PopRest(codecs, st, source, bitrate, initial, ds, q);
    PopIds(codecs, q);
    PendingKept(codecs, st, st1[d.codecId], source, bitrate, initial, ds, [d], d.codecId, q[1..]);
  }

  /**
   * The first half of a step of simulate: the packet in flight that finishes
   * first leaves the queue, is time-stamped at its finish and is decoded by
   * its codec's receiving end.
   */
  method NextDelivery(codecs: seq<Codec>, source: Source, bitrate: int, ghost channels: nat,
                      ghost initial: seq<Ends>, ghost ds: seq<Delivery>, ghost st: seq<Ends>, queue: TransmitQueue)
    returns (d: Delivery, ghost st1: seq<Ends>)
    requires bitrate != 0 && |initial| == |codecs| && |codecs| >= 1
    requires Separate(codecs) && SourceOk(source, channels)
    requires Current(codecs, st) && AllReady(codecs, channels, st)
    requires queue.Valid() && queue !in CodecObjects(codecs)
    requires QueueOk(codecs, st, source, bitrate, initial, ds, queue.entries)
    modifies queue, CodecObjects(codecs)
    ensures |old(queue.entries)| > 0 && d.position == old(queue.entries)[0].0
    ensures queue.Valid() && queue.entries == old(queue.entries)[1..]
    ensures d.codecId < |codecs|
    ensures Current(codecs, st1) && |st1| == |st| && st1 == st[d.codecId := st1[d.codecId]]
    ensures AllReady(codecs, channels, st1)
    ensures Delivered(codecs, source, bitrate, initial, ds + [d], |ds|)
    ensures LexLe(LastFinish(ds), LastStart(ds), LastId(ds), d.position, d.start, d.codecId)
    ensures PacketShaped(d.packet)
    ensures Settled(codecs[d.codecId], st1[d.codecId], d.packet.rxId, initial[d.codecId])
    ensures AllPending(codecs, st1, source, bitrate, initial, ds + [d], queue.entries)
    ensures forall x :: x in queue.entries ==> Straddles(d.position, d.start, d.codecId, x)
    ensures d.codecId !in Ids(queue.entries)
    ensures forall c :: 0 <= c < |codecs| && c != d.codecId ==> c in Ids(queue.entries)
    ensures DistinctIds(queue.entries) && LexSorted(queue.entries)
  {
    ghost var q := queue.entries;
    PopHead(codecs, st, source, bitrate, initial, ds, q);
    ghost var c := q[0].1.codecId;
    d, st1 := ReceiveHead(codecs, bitrate, channels, LastRx(ds, c, initial[c].rx), initial[c], st, queue);
    DeliveredHead(codecs, st, source, bitrate, initial, ds, q[0], d);
    ReceiveKeepsQueue(codecs, st, st1, source, bitrate, initial, ds, q, d);
  }

  // ---------------------------------------------------------------------------
  // A run
  // ---------------------------------------------------------------------------

  /** Appending a delivery keeps the earlier ones as they were. */
  lemma DeliveredAppend(codecs: seq<Codec>, source: Source, bitrate: int, initial: seq<Ends>,
                        ds: seq<Delivery>, d: Delivery)
    requires bitrate != 0 && |initial| == |codecs|
    requires forall k :: 0 <= k < |ds| ==> Delivered(codecs, source, bitrate, initial, ds, k)
    requires Delivered(codecs, source, bitrate, initial, ds + [d], |ds|)
    ensures forall k :: 0 <= k < |ds| + 1 ==> Delivered(codecs, source, bitrate, initial, ds + [d], k)
  {
    forall k | 0 <= k < |ds|
      ensures Delivered(codecs, source, bitrate, initial, ds + [d], k)
    {
      var r := ds + [d];
      assert r[..k] == ds[..k] && r[k] == ds[k];
      assert Delivered(codecs, source, bitrate, initial, ds, k);
      assert LastPosition(r[..k], ds[k].codecId) == LastPosition(ds[..k], ds[k].codecId);
      assert LastRx(r[..k], ds[k].codecId, initial[ds[k].codecId].rx) == LastRx(ds[..k], ds[k].codecId, initial[ds[k].codecId].rx);
    }
  }

  /** Deliveries in time order: by finishing position, then by starting position. */
  predicate Chronological(ds: seq<Delivery>)
  {
    forall i, j :: 0 <= i < j < |ds| ==> LexLe(ds[i].position, ds[i].start, ds[i].codecId, ds[j].position, ds[j].start, ds[j].codecId)
  }

  lemma ChronologicalAppend(ds: seq<Delivery>, d: Delivery)
    requires Chronological(ds) && LexLe(LastFinish(ds), LastStart(ds), LastId(ds), d.position, d.start, d.codecId)
    ensures Chronological(ds + [d])
  {
    var r := ds + [d];
    forall i, j | 0 <= i < j < |r|
      ensures LexLe(r[i].position, r[i].start, r[i].codecId, r[j].position, r[j].start, r[j].codecId)
    {
      if j == |ds| && i < |ds| - 1 {
        assert LexLe(ds[i].position, ds[i].start, ds[i].codecId, ds[|ds| - 1].position, ds[|ds| - 1].start, ds[|ds| - 1].codecId);
      }
    }
  }

  /**
   * Nothing was skipped: the next packet of every codec, which starts where
   * its last delivered one finished, comes no earlier than the last delivery.
   */
  predicate Complete(codecs: seq<Codec>, ds: seq<Delivery>)
  {
    forall c :: 0 <= c < |codecs| ==>
      LexLe(LastFinish(ds), LastStart(ds), LastId(ds), LastPosition(ds, c) + codecs[c].PacketBits(), LastPosition(ds, c), c)
  }

  /**
   * Where the run stopped: at the first packet finishing at or past the
   * bound, or, without a bound, after `cutoff` deliveries.
   */
  predicate Stopped(bound: Option<int>, cutoff: nat, ds: seq<Delivery>)
  {
    && |ds| >= 1
    && match bound
       case Some(b) => LastFinish(ds) >= b && forall k :: 0 <= k < |ds| - 1 ==> ds[k].position < b
       case None => |ds| == cutoff
  }

  /** Deliveries `ds` are what the engine computes, in time order, each with its error vector defined. */
  predicate Recorded(codecs: seq<Codec>, source: Source, bitrate: int, initial: seq<Ends>, ds: seq<Delivery>)
    requires bitrate != 0 && |initial| == |codecs|
  {
    && (forall k :: 0 <= k < |ds| ==> Delivered(codecs, source, bitrate, initial, ds, k))
    && Chronological(ds)
    && (forall k :: 0 <= k < |ds| ==> PacketShaped(ds[k].packet))
  }

  /** Everything a run of simulate hands its listeners, in order. */
  predicate Run(codecs: seq<Codec>, source: Source, bitrate: int, initial: seq<Ends>,
                bound: Option<int>, cutoff: nat, ds: seq<Delivery>)
    requires bitrate != 0 && |initial| == |codecs|
  {
    && Recorded(codecs, source, bitrate, initial, ds)
    && Complete(codecs, ds)
    && Stopped(bound, cutoff, ds)
  }

  /** What codec `c` sends next after deliveries `ds`: the source sampled where its last packet finished, quantised. */
  function NextTxId(codecs: seq<Codec>, source: Source, bitrate: int, ds: seq<Delivery>, c: nat): seq<int>
    requires bitrate != 0 && c < |codecs|
  {
    F2IVec(source(BitsToTs(LastPosition(ds, c), bitrate)), codecs[c].Bits())
  }

  /**
   * What the codecs hold when a run stops after `ds`: the codec delivered
   * last has nothing in flight, and every other codec has sent its next
   * packet, which is never received. A delta codec other than the last
   * therefore ends with its transmitting end one packet further ahead of
   * its receiving end than it started.
   */
  ghost predicate LeftAfter(codecs: seq<Codec>, source: Source, bitrate: int, initial: seq<Ends>,
                            ds: seq<Delivery>, st: seq<Ends>)
    requires bitrate != 0 && |initial| == |codecs| && |st| == |codecs| && |ds| >= 1
  {
    forall c :: 0 <= c < |codecs| ==>
      if c == ds[|ds| - 1].codecId then Settled(codecs[c], st[c], LastRx(ds, c, initial[c].rx), initial[c])
      else Sent(codecs[c], st[c], LastRx(ds, c, initial[c].rx), initial[c], NextTxId(codecs, source, bitrate, ds, c))
  }

  /**
   * A delta codec left with a packet in flight is ahead by the lead it
   * started with plus that packet's differences: the lead a further run on
   * the same codec starts from.
   */
  lemma LeadAfterSent(c: Codec, s: Ends, prev: seq<int>, e0: Ends, txId: seq<int>)
    requires c.Delta? && Sent(c, s, prev, e0, txId)
    ensures |s.tx| == |s.rx| == |txId|
    ensures Lead(s) == AddVec(Lead(e0), Deltas(txId, AddVec(prev, Lead(e0)), c.delta.deltaBits))
  {
    var last := AddVec(prev, Lead(e0));
    var delta := Deltas(txId, last, c.delta.deltaBits);
    assert forall i :: 0 <= i < |prev| ==> Lead(s)[i] == AddVec(Lead(e0), delta)[i];
  }

  /**
   * Right after delivery `d`: its codec's receiving end holds what it
   * returned, and `q`, the rest of the queue, holds one pending packet for
   * every other codec, none earlier than `d`.
   */
  predicate Received(codecs: seq<Codec>, st: seq<Ends>, source: Source, bitrate: int, initial: seq<Ends>,
                     ds: seq<Delivery>, d: Delivery, q: seq<Entry>)
    requires bitrate != 0 && |initial| == |codecs| && |st| == |codecs|
  {
    && d.codecId < |codecs|
    && LastPosition(ds + [d], d.codecId) == d.position
    && d.position == d.start + codecs[d.codecId].PacketBits()
    && Settled(codecs[d.codecId], st[d.codecId], LastRx(ds + [d], d.codecId, initial[d.codecId].rx), initial[d.codecId])
    && AllPending(codecs, st, source, bitrate, initial, ds + [d], q)
    && (forall x :: x in q ==> Straddles(d.position, d.start, d.codecId, x))
    && d.codecId !in Ids(q)
    && (forall c :: 0 <= c < |codecs| && c != d.codecId ==> c in Ids(q))
    && DistinctIds(q) && LexSorted(q)
  }

  /** The codec just received has its next packet, from `d`'s finish, still ahead of `d`. */
  lemma CompleteOwn(codecs: seq<Codec>, st: seq<Ends>, channels: nat, initial: seq<Ends>,
                    ds: seq<Delivery>, d: Delivery)
    requires |initial| == |codecs| && |st| == |codecs| && d.codecId < |codecs|
    requires CodecReady(codecs[d.codecId], channels, st[d.codecId])
    requires Settled(codecs[d.codecId], st[d.codecId], d.packet.rxId, initial[d.codecId])
    ensures LexLe(LastFinish(ds + [d]), LastStart(ds + [d]), LastId(ds + [d]),
                  LastPosition(ds + [d], d.codecId) + codecs[d.codecId].PacketBits(), LastPosition(ds + [d], d.codecId), d.codecId)
    ensures codecs[d.codecId].Delta? ==> st[d.codecId].rx == LastRx(ds + [d], d.codecId, initial[d.codecId].rx)
  {
    PacketBitsPositive(codecs[d.codecId], channels, st[d.codecId]);
  }

  /** Any other codec's next packet is the one queued for it, which is no earlier than `d`. */
  lemma CompleteOther(codecs: seq<Codec>, st: seq<Ends>, source: Source, bitrate: int, initial: seq<Ends>,
                      ds: seq<Delivery>, d: Delivery, x: Entry)
    requires bitrate != 0 && |initial| == |codecs| && |st| == |codecs|
    requires Pending(codecs, st, source, bitrate, initial, ds + [d], x)
    requires LexLe(d.position, d.start, d.codecId, x.0, x.1.start, x.1.codecId)
    ensures LexLe(LastFinish(ds + [d]), LastStart(ds + [d]), LastId(ds + [d]),
                  LastPosition(ds + [d], x.1.codecId) + codecs[x.1.codecId].PacketBits(), LastPosition(ds + [d], x.1.codecId),
                  x.1.codecId)
    ensures codecs[x.1.codecId].Delta? ==> st[x.1.codecId].rx == LastRx(ds + [d], x.1.codecId, initial[x.1.codecId].rx)
  {
  }

  /**
   * Right after delivery `d`, every codec's next packet comes no earlier
   * than `d`, and every delta codec's receiving end holds its last
   * delivered vector.
   */
  lemma CompleteAfter(codecs: seq<Codec>, st: seq<Ends>, source: Source, bitrate: int, channels: nat,
                      initial: seq<Ends>, ds: seq<Delivery>, d: Delivery, q: seq<Entry>)
    requires bitrate != 0 && |initial| == |codecs| && |st| == |codecs| && d.codecId < |codecs|
    requires AllReady(codecs, channels, st)
    requires Settled(codecs[d.codecId], st[d.codecId], d.packet.rxId, initial[d.codecId])
    requires AllPending(codecs, st, source, bitrate, initial, ds + [d], q)
    requires forall x :: x in q ==> LexLe(d.position, d.start, d.codecId, x.0, x.1.start, x.1.codecId)
    requires forall c :: 0 <= c < |codecs| && c != d.codecId ==> c in Ids(q)
    ensures Complete(codecs, ds + [d])
    ensures forall c :: 0 <= c < |codecs| && codecs[c].Delta? ==> st[c].rx == LastRx(ds + [d], c, initial[c].rx)
  {
    var r := ds + [d];
    forall c | 0 <= c < |codecs|
      ensures LexLe(LastFinish(r), LastStart(r), LastId(r), LastPosition(r, c) + codecs[c].PacketBits(), LastPosition(r, c), c)
      ensures codecs[c].Delta? ==> st[c].rx == LastRx(r, c, initial[c].rx)
    {
      if c == d.codecId {
        CompleteOwn(codecs, st, channels, initial, ds, d);
      } else {
        var x := IdWitness(q, c);
        CompleteOther(codecs, st, source, bitrate, initial, ds, d, x);
      }
    }
  }

  /**
   * The next packet of the codec just delivered, as long as the delivered
   * one, straddles the delivery like every queued entry; it comes after
   * every entry that finishes with it.
   */
  lemma InsertAfter(q: seq<Entry>, e: Entry, d: Delivery)
    requires forall x :: x in q ==> Straddles(d.position, d.start, d.codecId, x)
    requires e.1.codecId == d.codecId && e.1.start == d.position && e.0 > d.position
    requires e.0 - e.1.start == d.position - d.start
    ensures forall x :: x in InsertByKey(q, e) ==> Straddles(d.position, d.start, d.codecId, x)
    ensures forall x :: x in q && x.0 == e.0 ==> LexLe(x.0, x.1.start, x.1.codecId, e.0, e.1.start, e.1.codecId)
  {
    InsertMembers(q, e);
    forall x | x in q && x.0 == e.0
      ensures LexLe(x.0, x.1.start, x.1.codecId, e.0, e.1.start, e.1.codecId)
    {
      assert Straddles(d.position, d.start, d.codecId, x);
      if x.1.start == e.1.start {
        assert 2 * x.1.start - x.0 == d.start;
      }
    }
  }

  /** Inserting an entry of the one codec missing from the queue gives every codec an entry. */
  lemma InsertCovers(q: seq<Entry>, e: Entry, n: nat)
    requires forall c :: 0 <= c < n && c != e.1.codecId ==> c in Ids(q)
    ensures forall c :: 0 <= c < n ==> c in Ids(InsertByKey(q, e))
  {
    InsertMembers(q, e);
  }

  /**
   * Sending the next packet of the codec just received keeps the queue in
   * order, and shrinks what is left before the bound.
   */
  lemma EnqueueKeepsQueue(codecs: seq<Codec>, st: seq<Ends>, source: Source, bitrate: int,
                          initial: seq<Ends>, ds: seq<Delivery>, d: Delivery, q: seq<Entry>, e: Entry,
                          bound: Option<int>)
    requires bitrate != 0 && |initial| == |codecs| && |st| == |codecs| && d.codecId < |codecs|
    requires |q| > 0 && q[0].0 == d.position
    requires AllPending(codecs, st, source, bitrate, initial, ds + [d], InsertByKey(q[1..], e))
    requires forall x :: x in q[1..] ==> Straddles(d.position, d.start, d.codecId, x)
    requires d.codecId !in Ids(q[1..])
    requires forall c :: 0 <= c < |codecs| && c != d.codecId ==> c in Ids(q[1..])
    requires DistinctIds(q[1..]) && LexSorted(q[1..])
    requires e.1.codecId == d.codecId && e.1.start == d.position && e.0 > d.position
    requires e.0 - e.1.start == d.position - d.start
    requires bound.Some? ==> d.position < bound.value
    ensures QueueOk(codecs, st, source, bitrate, initial, ds + [d], InsertByKey(q[1..], e))
    ensures bound.Some? ==> Budget(InsertByKey(q[1..], e), bound.value) < Budget(q, bound.value)
  {
    var q1 := q[1..];
    InsertAfter(q1, e, d);
    InsertCovers(q1, e, |codecs|);
    InsertDistinct(q1, e);
    InsertLexSorted(q1, e);
    assert LastFinish(ds + [d]) == d.position && LastStart(ds + [d]) == d.start && LastId(ds + [d]) == d.codecId;
    if bound.Some? {
      BudgetInsert(q1, e, bound.value);
    }
  }

  /** A delivery taken from an ordered queue extends the record of the run and leaves the rest of the queue in order. */
  lemma DeliveryRecorded(codecs: seq<Codec>, st: seq<Ends>, source: Source, bitrate: int, channels: nat,
                         initial: seq<Ends>, ds: seq<Delivery>, d: Delivery, q: seq<Entry>)
    requires bitrate != 0 && |initial| == |codecs| && |st| == |codecs| && d.codecId < |codecs|
    requires Recorded(codecs, source, bitrate, initial, ds) && AllReady(codecs, channels, st)
    requires Delivered(codecs, source, bitrate, initial, ds + [d], |ds|)
    requires LexLe(LastFinish(ds), LastStart(ds), LastId(ds), d.position, d.start, d.codecId) && PacketShaped(d.packet)
    requires Settled(codecs[d.codecId], st[d.codecId], d.packet.rxId, initial[d.codecId])
    requires AllPending(codecs, st, source, bitrate, initial, ds + [d], q)
    requires forall x :: x in q ==> Straddles(d.position, d.start, d.codecId, x)
    requires d.codecId !in Ids(q)
    requires forall c :: 0 <= c < |codecs| && c != d.codecId ==> c in Ids(q)
    requires DistinctIds(q) && LexSorted(q)
    ensures Recorded(codecs, source, bitrate, initial, ds + [d]) && Complete(codecs, ds + [d])
    ensures forall c :: 0 <= c < |codecs| && codecs[c].Delta? ==> st[c].rx == LastRx(ds + [d], c, initial[c].rx)
    ensures Received(codecs, st, source, bitrate, initial, ds, d, q)
  {
    RecordedAppend(codecs, source, bitrate, initial, ds, d);
    CompleteAfter(codecs, st, source, bitrate, channels, initial, ds, d, q);
    var r := ds + [d];
    assert r[|r| - 1] == d;
    assert LastPosition(r, d.codecId) == d.position;
    assert LastRx(r, d.codecId, initial[d.codecId].rx) == d.packet.rxId;
  }

  /** The record of a run extended by the delivery the engine computes next, in time order. */
  lemma RecordedAppend(codecs: seq<Codec>, source: Source, bitrate: int, initial: seq<Ends>,
                       ds: seq<Delivery>, d: Delivery)
    requires bitrate != 0 && |initial| == |codecs|
    requires Recorded(codecs, source, bitrate, initial, ds)
    requires Delivered(codecs, source, bitrate, initial, ds + [d], |ds|)
    requires LexLe(LastFinish(ds), LastStart(ds), LastId(ds), d.position, d.start, d.codecId) && PacketShaped(d.packet)
    ensures Recorded(codecs, source, bitrate, initial, ds + [d])
  {
    ChronologicalAppend(ds, d);
    DeliveredAppend(codecs, source, bitrate, initial, ds, d);
    var r := ds + [d];
    forall k | 0 <= k < |r|
      ensures PacketShaped(r[k].packet)
    {
      if k < |ds| {
        assert r[k] == ds[k];
      }
    }
  }

  /** Receiving the packet in flight that finishes first extends the record of the run by one delivery. */
  method ReceiveRecorded(codecs: seq<Codec>, source: Source, bitrate: int, ghost channels: nat,
                         ghost initial: seq<Ends>, ghost ds: seq<Delivery>, ghost st: seq<Ends>, queue: TransmitQueue)
    returns (d: Delivery, ghost st1: seq<Ends>)
    requires bitrate != 0 && |initial| == |codecs| && |codecs| >= 1
    requires Separate(codecs) && SourceOk(source, channels)
    requires Current(codecs, st) && AllReady(codecs, channels, st)
    requires queue.Valid() && queue !in CodecObjects(codecs)
    requires QueueOk(codecs, st, source, bitrate, initial, ds, queue.entries)
    requires Recorded(codecs, source, bitrate, initial, ds)
    modifies queue, CodecObjects(codecs)
    ensures |old(queue.entries)| > 0 && d.position == old(queue.entries)[0].0
    ensures queue.Valid() && queue.entries == old(queue.entries)[1..]
    ensures Current(codecs, st1) && |st1| == |st| && AllReady(codecs, channels, st1)
    ensures PacketShaped(d.packet)
    ensures Recorded(codecs, source, bitrate, initial, ds + [d]) && Complete(codecs, ds + [d])
    ensures forall c :: 0 <= c < |codecs| && codecs[c].Delta? ==> st1[c].rx == LastRx(ds + [d], c, initial[c].rx)
    ensures Received(codecs, st1, source, bitrate, initial, ds, d, queue.entries)
  {
    d, st1 := NextDelivery(codecs, source, bitrate, channels, initial, ds, st, queue);
    DeliveryRecorded(codecs, st1, source, bitrate, channels, initial, ds, d, queue.entries);
  }

  /**
   * One step of simulate up to the listeners: receive the packet in flight
   * that finishes first and hand it to every listener, in order.
   */
  method ReceiveAndNotify(codecs: seq<Codec>, listeners: seq<Listener>, source: Source, bitrate: int,
                          ghost channels: nat, ghost initial: seq<Ends>, ghost ds: seq<Delivery>,
                          ghost st: seq<Ends>, ghost v0: seq<ListenerView>, queue: TransmitQueue)
    returns (d: Delivery, ghost st1: seq<Ends>)
    requires bitrate != 0 && |initial| == |codecs| && |codecs| >= 1
    requires Separate(codecs) && SourceOk(source, channels) && ListenersReady(listeners)
    requires CodecObjects(codecs) !! ListenerObjects(listeners)
    requires Current(codecs, st) && AllReady(codecs, channels, st)
    requires queue.Valid() && queue !in CodecObjects(codecs) && queue !in ListenerObjects(listeners)
    requires QueueOk(codecs, st, source, bitrate, initial, ds, queue.entries)
    requires Recorded(codecs, source, bitrate, initial, ds)
    requires |v0| == |listeners| && forall i :: 0 <= i < |listeners| ==> (listeners[i].Plain? <==> v0[i].PacketsView?)
    requires forall i :: 0 <= i < |listeners| ==> View(listeners[i]) == ViewAfter(listeners[i], v0[i], ds)
    modifies queue, CodecObjects(codecs), ListenerObjects(listeners)
    ensures |old(queue.entries)| > 0 && d.position == old(queue.entries)[0].0
    ensures queue.Valid() && queue.entries == old(queue.entries)[1..]
    ensures Current(codecs, st1) && |st1| == |st| && AllReady(codecs, channels, st1)
    ensures Recorded(codecs, source, bitrate, initial, ds + [d]) && Complete(codecs, ds + [d])
    ensures forall c :: 0 <= c < |codecs| && codecs[c].Delta? ==> st1[c].rx == LastRx(ds + [d], c, initial[c].rx)
    ensures Received(codecs, st1, source, bitrate, initial, ds, d, queue.entries)
    ensures forall i :: 0 <= i < |listeners| ==> View(listeners[i]) == ViewAfter(listeners[i], v0[i], ds + [d])
  {
    d, st1 := ReceiveRecorded(codecs, source, bitrate, channels, initial, ds, st, queue);
    forall i | 0 <= i < |listeners|
      ensures View(listeners[i]) == old(View(listeners[i]))
    {
      assert listeners[i].Object() in ListenerObjects(listeners);
      match listeners[i] {
        case Plain(c) => assert c.packets == old(c.packets);
        case Rolling(r) => assert r.metrics == old(r.metrics);
      }
    }
    label received:
    NotifyListeners(listeners, d.codecId, d.packet);
    forall i | 0 <= i < |codecs|
      ensures StateOf(codecs[i]) == st1[i]
    {
      assert codecs[i].Objects() <= CodecObjects(codecs);
      if codecs[i].Delta? {
        assert codecs[i].delta.rxLast == old@received(codecs[i].delta.rxLast);
        assert codecs[i].delta.txLast[..] == old@received(codecs[i].delta.txLast[..]);
      }
    }
  }

  /**
   * The rest of a step of simulate: the codec just received sends its next
   * packet from where that one finished.
   */
  method SendNext(codecs: seq<Codec>, listeners: seq<Listener>, source: Source, bitrate: int,
                  ghost channels: nat, ghost initial: seq<Ends>, ghost ds: seq<Delivery>, d: Delivery,
                  ghost st: seq<Ends>, ghost q: seq<Entry>, queue: TransmitQueue, bound: Option<int>)
    returns (ghost st1: seq<Ends>)
    requires bitrate != 0 && |initial| == |codecs| && |codecs| >= 1
    requires Separate(codecs) && SourceOk(source, channels)
    requires CodecObjects(codecs) !! ListenerObjects(listeners)
    requires Current(codecs, st) && AllReady(codecs, channels, st)
    requires queue.Valid() && queue !in CodecObjects(codecs) && queue !in ListenerObjects(listeners)
    requires |q| > 0 && q[0].0 == d.position && queue.entries == q[1..]
    requires Received(codecs, st, source, bitrate, initial, ds, d, queue.entries)
    requires bound.Some? ==> d.position < bound.value
    modifies queue, CodecObjects(codecs)
    ensures queue.Valid()
    ensures Current(codecs, st1) && |st1| == |st| && AllReady(codecs, channels, st1)
    ensures QueueOk(codecs, st1, source, bitrate, initial, ds + [d], queue.entries)
    ensures bound.Some? ==> Budget(queue.entries, bound.value) < Budget(q, bound.value)
    ensures forall i :: 0 <= i < |listeners| && listeners[i].Plain? ==>
              listeners[i].collector.packets == old(listeners[i].collector.packets)
    ensures forall i :: 0 <= i < |listeners| && listeners[i].Rolling? ==>
              listeners[i].rolling.metrics == old(listeners[i].rolling.metrics)
  {
    forall i | 0 <= i < |listeners|
      ensures listeners[i].Object() !in codecs[d.codecId].Objects() && listeners[i].Object() != queue
    {
      assert listeners[i].Object() in ListenerObjects(listeners);
      assert codecs[d.codecId].Objects() <= CodecObjects(codecs);
    }
    ghost var e;
    e, st1 := Enqueue(codecs, d.codecId, d.position, source, bitrate, channels, initial, ds + [d], st, queue);
    EnqueueKeepsQueue(codecs, st1, source, bitrate, initial, ds, d, q, e, bound);
    forall i | 0 <= i < |listeners|
      ensures listeners[i].Plain? ==> listeners[i].collector.packets == old(listeners[i].collector.packets)
      ensures listeners[i].Rolling? ==> listeners[i].rolling.metrics == old(listeners[i].rolling.metrics)
    {
      assert listeners[i].Object() in ListenerObjects(listeners);
    }
  }

  /** The deliveries up to the one that makes the engine stop form a run. */
  lemma RunAtStop(codecs: seq<Codec>, source: Source, bitrate: int, initial: seq<Ends>, bound: Option<int>,
                  cutoff: nat, ds: seq<Delivery>, d: Delivery)
    requires bitrate != 0 && |initial| == |codecs|
    requires Recorded(codecs, source, bitrate, initial, ds + [d]) && Complete(codecs, ds + [d])
    requires bound.Some? ==> (forall k :: 0 <= k < |ds| ==> ds[k].position < bound.value) && d.position >= bound.value
    requires bound.None? ==> |ds| + 1 == cutoff
    ensures Run(codecs, source, bitrate, initial, bound, cutoff, ds + [d])
  {
    var r := ds + [d];
    if bound.Some? {
      forall k | 0 <= k < |r| - 1
        ensures r[k].position < bound.value
      {
        assert r[k] == ds[k];
      }
    }
  }

  /** Where the engine stops, the codecs hold what `LeftAfter` says. */
  lemma LeftAtStop(codecs: seq<Codec>, st: seq<Ends>, source: Source, bitrate: int, initial: seq<Ends>,
                   ds: seq<Delivery>, d: Delivery, q: seq<Entry>)
    requires bitrate != 0 && |initial| == |codecs| && |st| == |codecs|
    requires Received(codecs, st, source, bitrate, initial, ds, d, q)
    ensures LeftAfter(codecs, source, bitrate, initial, ds + [d], st)
  {
    var r := ds + [d];
    assert r[|r| - 1] == d;
    forall c | 0 <= c < |codecs| && c != d.codecId
      ensures Sent(codecs[c], st[c], LastRx(r, c, initial[c].rx), initial[c], NextTxId(codecs, source, bitrate, r, c))
    {
      var x := IdWitness(q, c);
      assert Pending(codecs, st, source, bitrate, initial, r, x);
    }
  }

  /** While the engine runs on, every delivery so far finished before the bound. */
  lemma BeforeBound(ds: seq<Delivery>, d: Delivery, b: int)
    requires (forall k :: 0 <= k < |ds| ==> ds[k].position < b) && d.position < b
    ensures forall k :: 0 <= k < |ds| + 1 ==> (ds + [d])[k].position < b
  {
  }

  /**
   * One pass of simulate's loop: receive and notify, then decide whether
   * to stop, and otherwise send the same codec's next packet.
   */
  method Step(codecs: seq<Codec>, listeners: seq<Listener>, source: Source, bitrate: int, bound: Option<int>,
              cutoff: nat, count: nat, ghost channels: nat, ghost initial: seq<Ends>, ghost ds: seq<Delivery>,
              ghost st: seq<Ends>, ghost v0: seq<ListenerView>, queue: TransmitQueue)
    returns (d: Delivery, stop: bool, ghost st1: seq<Ends>)
    requires bitrate != 0 && |initial| == |codecs| && |codecs| >= 1
    requires Separate(codecs) && SourceOk(source, channels) && ListenersReady(listeners)
    requires CodecObjects(codecs) !! ListenerObjects(listeners)
    requires Current(codecs, st) && AllReady(codecs, channels, st)
    requires queue.Valid() && queue !in CodecObjects(codecs) && queue !in ListenerObjects(listeners)
    requires QueueOk(codecs, st, source, bitrate, initial, ds, queue.entries)
    requires Recorded(codecs, source, bitrate, initial, ds)
    requires bound.Some? ==> forall k :: 0 <= k < |ds| ==> ds[k].position < bound.value
    requires count == |ds| && (bound.None? ==> count < cutoff)
    requires |v0| == |listeners| && forall i :: 0 <= i < |listeners| ==> (listeners[i].Plain? <==> v0[i].PacketsView?)
    requires forall i :: 0 <= i < |listeners| ==> View(listeners[i]) == ViewAfter(listeners[i], v0[i], ds)
    modifies queue, CodecObjects(codecs), ListenerObjects(listeners)
    ensures stop <==> (bound.Some? && d.position >= bound.value) || (bound.None? && count + 1 >= cutoff)
    ensures Recorded(codecs, source, bitrate, initial, ds + [d])
    ensures forall i :: 0 <= i < |listeners| ==> View(listeners[i]) == ViewAfter(listeners[i], v0[i], ds + [d])
    ensures stop ==> Run(codecs, source, bitrate, initial, bound, cutoff, ds + [d])
    ensures stop ==> forall c :: 0 <= c < |codecs| && codecs[c].Delta? ==>
                       codecs[c].delta.rxLast == LastRx(ds + [d], c, initial[c].rx)
    ensures stop ==> Current(codecs, st1) && |st1| == |st| && LeftAfter(codecs, source, bitrate, initial, ds + [d], st1)
    ensures !stop ==> queue.Valid() && Current(codecs, st1) && |st1| == |st| && AllReady(codecs, channels, st1)
    ensures !stop ==> QueueOk(codecs, st1, source, bitrate, initial, ds + [d], queue.entries)
    ensures !stop && bound.Some? ==>
              && (forall k :: 0 <= k < |ds| + 1 ==> (ds + [d])[k].position < bound.value)
              && Budget(queue.entries, bound.value) < Budget(old(queue.entries), bound.value)
  {
    ghost var q := queue.entries;
    d, st1 := ReceiveAndNotify(codecs, listeners, source, bitrate, channels, initial, ds, st, v0, queue);
    label notified:
    stop := (bound.Some? && d.position >= bound.value) || (bound.None? && count + 1 >= cutoff);
    if stop {
      RunAtStop(codecs, source, bitrate, initial, bound, cutoff, ds, d);
      LeftAtStop(codecs, st1, source, bitrate, initial, ds, d, queue.entries);
      forall c | 0 <= c < |codecs| && codecs[c].Delta?
        ensures codecs[c].delta.rxLast == LastRx(ds + [d], c, initial[c].rx)
      {
        assert StateOf(codecs[c]) == st1[c];
      }
    } else {
      st1 := SendNext(codecs, listeners, source, bitrate, channels, initial, ds, d, st1, q, queue, bound);
      forall i | 0 <= i < |listeners|
        ensures View(listeners[i]) == old@notified(View(listeners[i]))
      {
        match listeners[i] {
          case Plain(c) => assert c.packets == old@notified(c.packets);
          case Rolling(r) => assert r.metrics == old@notified(r.metrics);
        }
      }
      if bound.Some? {
        BeforeBound(ds, d, bound.value);
      }
    }
  }

  /**
   * The loop of simulate, from a seeded queue: receive, notify, and stop or
   * send again, until a packet finishes at or past the bound (or, without
   * one, after `cutoff` deliveries).
   */
  method RunLoop(codecs: seq<Codec>, listeners: seq<Listener>, source: Source, bitrate: int, bound: Option<int>,
                 cutoff: nat, ghost channels: nat, ghost initial: seq<Ends>, ghost st0: seq<Ends>,
                 ghost v0: seq<ListenerView>, queue: TransmitQueue)
    returns (ghost deliveries: seq<Delivery>, ghost ends: seq<Ends>)
    requires bitrate != 0 && |initial| == |codecs| && |codecs| >= 1
    requires Separate(codecs) && SourceOk(source, channels) && ListenersReady(listeners)
    requires CodecObjects(codecs) !! ListenerObjects(listeners)
    requires Current(codecs, st0) && AllReady(codecs, channels, st0)
    requires queue.Valid() && queue !in CodecObjects(codecs) && queue !in ListenerObjects(listeners)
    requires QueueOk(codecs, st0, source, bitrate, initial, [], queue.entries)
    requires bound.None? ==> cutoff >= 1
    requires |v0| == |listeners| && forall i :: 0 <= i < |listeners| ==> (listeners[i].Plain? <==> v0[i].PacketsView?)
    requires forall i :: 0 <= i < |listeners| ==> View(listeners[i]) == v0[i]
    modifies queue, CodecObjects(codecs), ListenerObjects(listeners)
    ensures Run(codecs, source, bitrate, initial, bound, cutoff, deliveries)
    ensures forall i :: 0 <= i < |listeners| ==> View(listeners[i]) == ViewAfter(listeners[i], v0[i], deliveries)
    ensures forall c :: 0 <= c < |codecs| && codecs[c].Delta? ==> codecs[c].delta.rxLast == LastRx(deliveries, c, initial[c].rx)
    ensures Current(codecs, ends) && LeftAfter(codecs, source, bitrate, initial, deliveries, ends)
  {
    ghost var st := st0;
    deliveries := [];
    var count := 0;
    while true
      invariant queue.Valid()
      invariant Current(codecs, st) && AllReady(codecs, channels, st)
      invariant QueueOk(codecs, st, source, bitrate, initial, deliveries, queue.entries)
      invariant Recorded(codecs, source, bitrate, initial, deliveries)
      invariant bound.Some? ==> forall k :: 0 <= k < |deliveries| ==> deliveries[k].position < bound.value
      invariant count == |deliveries| && (bound.None? ==> count < cutoff)
      invariant forall i :: 0 <= i < |listeners| ==> View(listeners[i]) == ViewAfter(listeners[i], v0[i], deliveries)
      decreases if bound.Some? then Budget(queue.entries, bound.value) else cutoff - count
    {
      var d, stop;
      d, stop, st := Step(codecs, listeners, source, bitrate, bound, cutoff, count, channels, initial, deliveries, st, v0, queue);
      deliveries := deliveries + [d];
      count := count + 1;
      if stop {
        break;
      }
    }
    ends := st;
  }

  /**
   * simulate: seeds the queue, then repeatedly receives the packet in flight
   * that finishes first, hands it to every listener, stops once a packet
   * finishes at or past the duration, and otherwise lets the same codec send
   * its next packet from there. With no duration the engine never stops; the
   * model stops it after `cutoff` deliveries. `deliveries` records, in order,
   * what the listeners were handed.
   */
  method Simulate(codecs: seq<Codec>, listeners: seq<Listener>, source: Source, bitrate: int,
                  duration: Option<int>, cutoff: nat, ghost initial: seq<Ends>)
    returns (ghost deliveries: seq<Delivery>, ghost ends: seq<Ends>)
    requires bitrate != 0 && SetupReady(codecs, source, initial) && Current(codecs, Initial(codecs, initial))
    requires ListenersReady(listeners)
    requires duration.None? ==> cutoff >= 1
    modifies CodecObjects(codecs), ListenerObjects(listeners)
    ensures Run(codecs, source, bitrate, initial, DurationInBits(bitrate, duration), cutoff, deliveries)
    ensures forall i :: 0 <= i < |listeners| ==>
              View(listeners[i]) == ViewAfter(listeners[i], old(View(listeners[i])), deliveries)
    ensures forall c :: 0 <= c < |codecs| && codecs[c].Delta? ==> codecs[c].delta.rxLast == LastRx(deliveries, c, initial[c].rx)
    ensures Current(codecs, ends) && LeftAfter(codecs, source, bitrate, initial, deliveries, ends)
  {
    var bound := DurationInBits(bitrate, duration);
    assert CodecObjects(codecs) !! ListenerObjects(listeners);
    ghost var v0 := seq(|listeners|, i requires 0 <= i < |listeners| reads ListenerObjects(listeners) => View(listeners[i]));
    var queue, st := SeedQueue(codecs, source, bitrate, initial);
    forall i | 0 <= i < |listeners|
      ensures View(listeners[i]) == v0[i]
    {
      assert listeners[i].Object() in ListenerObjects(listeners);
      match listeners[i] {
        case Plain(c) => assert c.packets == old(c.packets);
        case Rolling(r) => assert r.metrics == old(r.metrics);
      }
    }
    deliveries, ends := RunLoop(codecs, listeners, source, bitrate, bound, cutoff, codecs[0].Channels(), initial, st, v0, queue);
  }
}
