/**
 * Time stamps and the records of one packet's trip over the link.
 *
 * Positions on the link are counted in bits; a position is turned into a
 * time stamp in microseconds by the link's bit rate. A vector of channel
 * values in [-1, 1] is a `seq<real>`; its quantised form is a `seq<int>`.
 */
module LinkPackets {
  import opened Options
  import opened Converters

  /** The link's bit rate unless a setup names another, in bits per second. */
  const DefaultBitrate: int := 20000

  /** bits_to_ts: the time in microseconds at which bit position `bits` is reached, rounded half to even. */
  function BitsToTs(bits: int, bitrate: int): (r: int)
    requires bitrate != 0
  {
    RoundHalfEven((bits * 1000000) as real / bitrate as real)
  }

  /** Position zero is time zero. */
  lemma BitsToTsZero(bitrate: int)
    requires bitrate != 0
    ensures BitsToTs(0, bitrate) == 0
  {
    RoundHalfEvenInt(0);
  }

  /** At a positive bit rate a later position never has an earlier time stamp. */
  lemma BitsToTsMonotone(a: int, b: int, bitrate: int)
    requires bitrate > 0 && a <= b
    ensures BitsToTs(a, bitrate) <= BitsToTs(b, bitrate)
  {
    var x := (a * 1000000) as real;
    var y := (b * 1000000) as real;
    var m := bitrate as real;
    assert x <= y;
    assert x / m <= y / m;
    RoundHalfEvenMonotone(x / m, y / m);
  }

  /** When the bit rate divides the position's microseconds the time stamp is the exact quotient. */
  lemma BitsToTsExact(bits: int, bitrate: int, q: int)
    requires bitrate != 0 && bits * 1000000 == q * bitrate
    ensures BitsToTs(bits, bitrate) == q
  {
    var m := bitrate as real;
    assert (bits * 1000000) as real == q as real * m;
    assert (bits * 1000000) as real / m == q as real;
    RoundHalfEvenInt(q);
  }

  /** At the default bit rate every bit lasts 50 microseconds. */
  lemma DefaultBitTime(bits: int)
    ensures BitsToTs(bits, DefaultBitrate) == 50 * bits
  {
    BitsToTsExact(bits, DefaultBitrate, 50 * bits);
  }

  /** ceil(a / m) for a positive divisor, on integers. */
  function CeilDiv(a: int, m: int): (r: int)
    requires m > 0
    ensures (r - 1) * m < a <= r * m
  {
    var q := (-a) / m;
    var rem := (-a) % m;
    assert -a == q * m + rem && 0 <= rem < m;
    assert -q * m == a + rem;
    assert (-q - 1) * m == a + rem - m;
    -q
  }

  /**
   * duration_in_bits: the number of bits the link carries in `duration`
   * microseconds, rounded up; no duration means no bound. A duration of
   * zero gives a bound of zero.
   */
  function DurationInBits(bitrate: int, duration: Option<int>): (r: Option<int>)
    ensures r.Some? <==> duration.Some?
    ensures r.Some? ==> (r.value - 1) * 1000000 < bitrate * duration.value <= r.value * 1000000
  {
    match duration
    case None => None
    case Some(d) => Some(CeilDiv(bitrate * d, 1000000))
  }

  /** Everything known about a packet when it is handed to the link. */
  datatype TxData = TxData(
    codecId: nat,
    start: int,
    txTs: int,
    txFd: seq<real>,
    txId: seq<int>,
    otaData: Bits)

  /** Everything about a packet sent across the link, including both time stamps. */
  datatype LinkPacket = LinkPacket(
    txTs: int,
    txFd: seq<real>,
    txId: seq<int>,
    otaData: Bits,
    rxId: seq<int>,
    rxFd: seq<real>,
    rxTs: int)

  /** LinkPacket's constructor: the transmit side copied from `tx`, the receive side as given. */
  function MakeLinkPacket(tx: TxData, rxTs: int, rxId: seq<int>, rxFd: seq<real>): (p: LinkPacket)
    ensures p.txTs == tx.txTs && p.txFd == tx.txFd && p.txId == tx.txId && p.otaData == tx.otaData
    ensures p.rxTs == rxTs && p.rxId == rxId && p.rxFd == rxFd
  {
    LinkPacket(tx.txTs, tx.txFd, tx.txId, tx.otaData, rxId, rxFd, rxTs)
  }

  /** The per-packet figures a rolling statistics listener keeps. */
  datatype PacketMetric = PacketMetric(rxTs: int, latency: int, maxError: real, meanError: real)
}
