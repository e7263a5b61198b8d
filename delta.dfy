/**
 * The delta codec: each end keeps the last vector it knows of. The
 * transmitter sends, per channel, the difference between the new value and
 * its last one, saturated to a signed `deltaBits`-bit integer, and advances
 * its last vector by what it sent; the receiver adds the decoded differences
 * to its own last vector. A large jump therefore reaches the receiver over
 * several packets.
 */
module DeltaCodecs {
  import opened Options
  import opened Converters

  // ---------------------------------------------------------------------------
  // Saturation (fit) and the vector arithmetic of a step
  // ---------------------------------------------------------------------------

  /** The largest difference one packet can carry upwards. */
  function MaxDelta(b: nat): (r: int)
    requires b >= 1
    ensures r >= 0
    ensures Fits(r, b, true) && !Fits(r + 1, b, true)
  {
    Pow2(b - 1) - 1
  }

  /** The largest difference one packet can carry downwards, as a magnitude. */
  function MinDelta(b: nat): (r: int)
    requires b >= 1
    ensures r >= 1
    ensures Fits(-r, b, true) && !Fits(-r - 1, b, true)
  {
    Pow2(b - 1)
  }

  /** fit: `value` clamped to the range of a signed `b`-bit integer. */
  function Fit(value: int, b: nat): (r: int)
    requires b >= 1
    ensures Fits(r, b, true)
    ensures Fits(value, b, true) ==> r == value
    ensures value < -MinDelta(b) ==> r == -MinDelta(b)
    ensures value > MaxDelta(b) ==> r == MaxDelta(b)
  {
    var lo := -Pow2(b - 1);
    var hi := Pow2(b - 1) - 1;
    var raised := if value > lo then value else lo;
    if raised < hi then raised else hi
  }

  /** Clamping never reorders values. */
  lemma FitMonotone(v: int, w: int, b: nat)
    requires b >= 1 && v <= w
    ensures Fit(v, b) <= Fit(w, b)
  {
  }

  /** The differences the transmitter sends for `data` when it last sent `last`. */
  function Deltas(data: seq<int>, last: seq<int>, b: nat): (r: seq<int>)
    requires b >= 1 && |data| == |last|
    ensures |r| == |data|
    ensures forall i :: 0 <= i < |r| ==> r[i] == Fit(data[i] - last[i], b)
  {
    if data == [] then [] else [Fit(data[0] - last[0], b)] + Deltas(data[1..], last[1..], b)
  }

  /** Every difference the transmitter sends fits `b` bits. */
  lemma DeltasFit(data: seq<int>, last: seq<int>, b: nat)
    requires b >= 1 && |data| == |last|
    ensures forall i :: 0 <= i < |data| ==> Fits(Deltas(data, last, b)[i], b, true)
  {
  }

  /** Elementwise sum of two vectors of the same length. */
  function AddVec(a: seq<int>, d: seq<int>): (r: seq<int>)
    requires |a| == |d|
    ensures |r| == |a|
    ensures forall i :: 0 <= i < |r| ==> r[i] == a[i] + d[i]
  {
    if a == [] then [] else [a[0] + d[0]] + AddVec(a[1..], d[1..])
  }

  /** The packet for a vector of differences: i2b_s at `b` bits, signed, then join. */
  function EncodeDeltas(deltas: seq<int>, b: nat): (r: Bits)
    requires |deltas| > 0
    requires forall i :: 0 <= i < |deltas| ==> Fits(deltas[i], b, true)
    ensures |r| == |deltas| * b
  {
    IntsRoundTrip(deltas, b, true);
    JoinUniform(IntsToBits(deltas, b, true).value, b);
    Join(IntsToBits(deltas, b, true).value)
  }

  /** The differences a packet carries: split at `b` bits, then b2i_s, signed. */
  function DecodeDeltas(packet: Bits, b: nat): (r: seq<int>)
    requires b >= 1
    ensures |r| == |packet| / b
    ensures forall i :: 0 <= i < |r| ==> Fits(r[i], b, true)
  {
    ChunksWidth(packet, b);
    BitsToInts(Chunks(packet, b), true)
  }

  /** A packet decodes to exactly the differences it was built from. */
  lemma DecodeEncode(deltas: seq<int>, b: nat)
    requires |deltas| > 0
    requires forall i :: 0 <= i < |deltas| ==> Fits(deltas[i], b, true)
    ensures b >= 1
    ensures DecodeDeltas(EncodeDeltas(deltas, b), b) == deltas
  {
    IntsRoundTrip(deltas, b, true);
    SplitJoin(IntsToBits(deltas, b, true).value, b);
  }

  /** A packet of whole pieces is the encoding of the differences it decodes to. */
  lemma EncodeDecode(packet: Bits, b: nat)
    requires b >= 1 && |packet| > 0 && |packet| % b == 0
    ensures |DecodeDeltas(packet, b)| > 0
    ensures EncodeDeltas(DecodeDeltas(packet, b), b) == packet
  {
    ChunksWidth(packet, b);
    PiecesRoundTrip(Chunks(packet, b), b, true);
    JoinSplit(packet, b);
  }

  /** When every difference fits, the transmitter's new last vector is the data itself. */
  lemma DeltasExact(data: seq<int>, last: seq<int>, b: nat)
    requires b >= 1 && |data| == |last|
    requires forall i :: 0 <= i < |data| ==> Fits(data[i] - last[i], b, true)
    ensures AddVec(last, Deltas(data, last, b)) == data
  {
  }

  // ---------------------------------------------------------------------------
  // One channel over several packets
  // ---------------------------------------------------------------------------

  /** The value the transmitter's last vector moves to when it sends `target` after `last`. */
  function Step(last: int, target: int, b: nat): (r: int)
    requires b >= 1
  {
    last + Fit(target - last, b)
  }

  /** One step moves towards the target by at most one packet's range and never overshoots. */
  lemma StepApproaches(last: int, target: int, b: nat)
    requires b >= 1
    ensures last <= target ==> last <= Step(last, target, b) <= target
    ensures last <= target ==> target - Step(last, target, b)
                               == (if target - last > MaxDelta(b) then target - last - MaxDelta(b) else 0)
    ensures target <= last ==> target <= Step(last, target, b) <= last
    ensures target <= last ==> Step(last, target, b) - target
                               == (if last - target > MinDelta(b) then last - target - MinDelta(b) else 0)
  {
  }

  /** The value after sending the same target `n` times. */
  function Track(last: int, target: int, b: nat, n: nat): (r: int)
    requires b >= 1
    decreases n
  {
    if n == 0 then last else Track(Step(last, target, b), target, b, n - 1)
  }

  /**
   * Sending a constant target repeatedly reaches it exactly once the number
   * of packets times the upward range covers the distance.
   */
  lemma {:induction false} TrackConverges(last: int, target: int, b: nat, n: nat)
    requires b >= 1
    requires -(n * MaxDelta(b)) <= target - last <= n * MaxDelta(b)
    ensures Track(last, target, b, n) == target
    decreases n
  {
    if n > 0 {
      var next := Step(last, target, b);
      StepApproaches(last, target, b);
      assert n * MaxDelta(b) == (n - 1) * MaxDelta(b) + MaxDelta(b);
      assert MaxDelta(b) <= MinDelta(b);
      if next == target {
        TrackStays(target, b, n - 1);
      } else {
        TrackConverges(next, target, b, n - 1);
      }
    }
  }

  /** Once reached, a constant target is kept. */
  lemma {:induction false} TrackStays(target: int, b: nat, n: nat)
    requires b >= 1
    ensures Track(target, target, b, n) == target
    decreases n
  {
    if n > 0 {
      TrackStays(target, b, n - 1);
    }
  }

  // ---------------------------------------------------------------------------
  // The codec
  // ---------------------------------------------------------------------------

  /**
   * DeltaCodec: the transmitter's last vector is an array updated in place
   * (`last += delta`); the receiver's last vector is rebound to a new vector
   * on every receive.
   */
  class DeltaCodec {
    const channels: nat
    const bits: nat
    const deltaBits: nat
    const txLast: array<int>
    var rxLast: seq<int>

    ghost predicate Valid()
      reads this, txLast
    {
      && channels >= 1
      && deltaBits >= 1
      && txLast.Length == channels
      && |rxLast| == channels
    }

    /** Both ends agree on the last vector: what holds between packets on a loss-free link. */
    ghost predicate Synced()
      reads this, txLast
    {
      txLast[..] == rxLast
    }

    /** Both ends start from the zero vector. */
    constructor (channels: nat, bits: nat, deltaBits: nat)
      requires channels >= 1 && deltaBits >= 1
      ensures Valid() && Synced()
      ensures this.channels == channels && this.bits == bits && this.deltaBits == deltaBits
      ensures fresh(txLast)
      ensures forall i :: 0 <= i < channels ==> txLast[i] == 0
    {
      this.channels := channels;
      this.bits := bits;
      this.deltaBits := deltaBits;
      txLast := new int[channels](_ => 0);
      rxLast := seq(channels, _ => 0);
    }

    /** transmit: sends the saturated differences and advances the transmitter's last vector by them. */
    method Transmit(data: seq<int>) returns (packet: Bits)
      requires Valid() && |data| == channels
      modifies txLast
      ensures Valid()
      ensures txLast[..] == AddVec(old(txLast[..]), Deltas(data, old(txLast[..]), deltaBits))
      ensures packet == EncodeDeltas(Deltas(data, old(txLast[..]), deltaBits), deltaBits)
    {
      ghost var before := txLast[..];
      var delta := Deltas(data, txLast[..], deltaBits);
      DeltasFit(data, before, deltaBits);
      forall i | 0 <= i < txLast.Length {
        txLast[i] := txLast[i] + delta[i];
      }
      assert txLast[..] == AddVec(before, delta);
      packet := EncodeDeltas(delta, deltaBits);
    }

    /** receive: adds the differences the packet carries to the receiver's last vector. */
    method Receive(packet: Bits) returns (received: seq<int>)
      requires Valid() && |packet| / deltaBits == channels
      modifies this
      ensures Valid()
      ensures received == AddVec(old(rxLast), DecodeDeltas(packet, deltaBits))
      ensures rxLast == received
    {
      var pieces := Split(packet, deltaBits);
      ChunksWidth(packet, deltaBits);
      var delta := BitsToInts(pieces, true);
      received := AddVec(rxLast, delta);
      rxLast := received;
    }
  }

  /**
   * One packet over a loss-free link: the receiver ends where the
   * transmitter does, and a vector whose differences fit arrives exactly.
   */
  method SendAndReceive(codec: DeltaCodec, data: seq<int>) returns (received: seq<int>)
    requires codec.Valid() && codec.Synced() && |data| == codec.channels
    modifies codec, codec.txLast
    ensures codec.Valid() && codec.Synced()
    ensures received == codec.rxLast
    ensures received == AddVec(old(codec.txLast[..]), Deltas(data, old(codec.txLast[..]), codec.deltaBits))
    ensures (forall i :: 0 <= i < |data| ==> Fits(data[i] - old(codec.txLast[i]), codec.deltaBits, true))
            ==> received == data
  {
    ghost var before := codec.txLast[..];
    ghost var delta := Deltas(data, before, codec.deltaBits);
    var packet := codec.Transmit(data);
    DecodeEncode(delta, codec.deltaBits);
    MulDiv(codec.channels, codec.deltaBits);
    received := codec.Receive(packet);
    assert received == AddVec(before, delta);
    if forall i :: 0 <= i < |data| ==> Fits(data[i] - before[i], codec.deltaBits, true) {
      DeltasExact(data, before, codec.deltaBits);
    }
  }

  /** A one-channel value within a 6-bit delta of the last one arrives exactly. */
  method SendWithin(codec: DeltaCodec, v: int) returns (received: seq<int>)
    requires codec.Valid() && codec.Synced() && codec.channels == 1 && codec.deltaBits == 6
    requires -32 <= v - codec.txLast[0] < 32
    modifies codec, codec.txLast
    ensures codec.Valid() && codec.Synced() && codec.channels == 1 && codec.deltaBits == 6
    ensures received == [v] && codec.txLast[0] == v
  {
    assert Pow2(5) == 32;
    received := SendAndReceive(codec, [v]);
  }

  /** Four values whose differences fit a 6-bit delta each arrive exactly. */
  method ExactScenario() returns (results: seq<seq<int>>)
    ensures results == [[0], [10], [20], [0]]
  {
    var codec := new DeltaCodec(1, 10, 6);
    var r0 := SendWithin(codec, 0);
    var r1 := SendWithin(codec, 10);
    var r2 := SendWithin(codec, 20);
    var r3 := SendWithin(codec, 0);
    results := [r0, r1, r2, r3];
  }

  /**
   * With 3-bit deltas (at most +3 per packet) a jump from 0 to 100 arrives
   * exactly within 50 packets.
   */
  method OverflowScenario() returns (trips: nat, received: seq<int>)
    ensures 1 <= trips <= 50 && received == [100]
  {
    var codec := new DeltaCodec(1, 8, 3);
    received := SendAndReceive(codec, [0]);
    trips := 0;
    while trips < 50 && received != [100]
      invariant codec.Valid() && codec.Synced() && codec.channels == 1 && codec.deltaBits == 3
      invariant fresh(codec) && fresh(codec.txLast)
      invariant trips <= 34
      invariant received == codec.rxLast == [if 3 * trips < 100 then 3 * trips else 100]
      decreases 50 - trips
    {
      received := SendAndReceive(codec, [100]);
      trips := trips + 1;
    }
  }
}
