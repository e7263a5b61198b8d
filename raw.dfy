/**
 * The raw codec: each quantised channel is packed unsigned at the codec's bit
 * depth and the channels are concatenated in order. It keeps no state: a
 * codec is the value of its two parameters, so equal calls give equal results.
 */
module RawCodecs {
  import opened Options
  import opened Converters

  datatype RawCodec = RawCodec(channels: nat, bits: nat) {

    /**
     * transmit: i2b_s at `bits` bits, unsigned, then join. None where the
     * source raises: a value outside [0, 2^bits - 1], or an empty vector,
     * which join refuses.
     */
    function Transmit(data: seq<int>): (r: Option<Bits>)
      ensures r.Some? <==> |data| > 0 && forall i :: 0 <= i < |data| ==> Fits(data[i], bits, false)
      ensures r.Some? ==> |r.value| == |data| * bits
    {
      match IntsToBits(data, bits, false)
      case None => None
      case Some(pieces) =>
        if |pieces| == 0 then None
        else
          JoinUniform(pieces, bits);
          Some(Join(pieces))
    }

    /** receive: split at `bits` bits and b2i_s, unsigned; trailing bits are ignored. */
    function Receive(packet: Bits): (r: seq<int>)
      requires bits >= 1
      ensures |r| == |packet| / bits
      ensures forall i :: 0 <= i < |r| ==> 0 <= r[i] < Pow2(bits)
    {
      ChunksWidth(packet, bits);
      BitsToInts(Chunks(packet, bits), false)
    }
  }

  /** Channel `i` occupies bits [i*bits, (i+1)*bits) of the packet, as its unsigned encoding. */
  lemma TransmitLayout(codec: RawCodec, data: seq<int>, i: nat)
    requires codec.Transmit(data).Some? && i < |data|
    ensures 0 <= i * codec.bits && (i + 1) * codec.bits <= |codec.Transmit(data).value|
    ensures codec.Transmit(data).value[i * codec.bits..(i + 1) * codec.bits]
            == IntToBits(data[i], codec.bits, false).value
  {
    var pieces := IntsToBits(data, codec.bits, false).value;
    JoinUniform(pieces, codec.bits);
    assert codec.Transmit(data).value == Join(pieces);
    assert InSlot(Join(pieces), codec.bits, i, pieces[i]);
  }

  /** Every vector of in-range values survives transmit followed by receive. */
  lemma ReceiveTransmit(codec: RawCodec, data: seq<int>)
    requires codec.Transmit(data).Some?
    ensures codec.bits >= 1
    ensures codec.Receive(codec.Transmit(data).value) == data
  {
    var pieces := IntsToBits(data, codec.bits, false).value;
    IntsRoundTrip(data, codec.bits, false);
    SplitJoin(pieces, codec.bits);
  }

  /** Every packet of whole channels is the transmission of what receive decodes from it. */
  lemma TransmitReceive(codec: RawCodec, packet: Bits)
    requires codec.bits >= 1 && |packet| > 0 && |packet| % codec.bits == 0
    ensures codec.Transmit(codec.Receive(packet)) == Some(packet)
  {
    var pieces := Chunks(packet, codec.bits);
    ChunksWidth(packet, codec.bits);
    PiecesRoundTrip(pieces, codec.bits, false);
    JoinSplit(packet, codec.bits);
  }

  /** Bits after the last whole channel do not change what receive returns. */
  lemma ReceiveIgnoresTrailing(codec: RawCodec, packet: Bits, extra: Bits)
    requires codec.bits >= 1 && |packet| % codec.bits == 0 && |extra| < codec.bits
    ensures codec.Receive(packet + extra) == codec.Receive(packet)
  {
    ChunksIgnoreTrailing(packet, extra, codec.bits);
  }
}
