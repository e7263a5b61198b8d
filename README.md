# rclinklab link simulator — a Dafny model

rclinklab simulates remote-control links. A source yields vectors of
channel values in [-1, 1]. A codec quantises each vector and packs it into
a bit packet. Several codecs share one serial link of fixed bit rate, and a
discrete-event engine decides which packet leaves the link when. Each
received packet is decoded, time-stamped and handed to the listeners, which
keep windows of packets or rolling statistics.

This project models the core of that system in Dafny:

- `converters.dfy` (module `Converters`): the bit and float conversion
  primitives. These are fixed-width unsigned and two's-complement packing,
  concatenation (`join`), chunking (`split`), and quantisation with
  Python's round-half-to-even.
- `raw.dfy` (module `RawCodecs`): the stateless raw codec, as a datatype.
- `delta.dfy` (module `DeltaCodecs`): the stateful delta codec, as a class.
  The transmitter's last vector is an array updated in place; the
  receiver's last vector is a field that is rebound.
- `packets.dfy` (module `LinkPackets`): `bits_to_ts`, the duration bound,
  and the `TxData` and `LinkPacket` records.
- `queue.dfy` (module `TransmitQueues`): the transmit queue, a class whose
  entry list is kept sorted by a stable insertion.
- `collectors.dfy` (module `Collectors`): `Collector` and
  `RollingStatsCollector`, as classes holding maps. Each has a pure
  specification of its update.
- `simulator.dfy` (module `Simulation`): `_transmit`, `_receive`,
  `_notify_listeners` and `simulate`, as methods on the heap.
  - `simulate` is proved against `Run`, a specification of the whole
    sequence of deliveries. Each delivery is what its codec computes from
    its previous packets.
  - Deliveries come in time order: by finishing bit, then by starting bit,
    then by codec index.
  - A delta codec may start with its two ends apart, as happens when
    `tests/test_all.py` reuses its codecs for a second source. The
    transmitter stays a fixed offset (`Simulation.Lead`) ahead of the
    receiver throughout, and the run ends with the offset grown by the
    packet sampled at the stop.
  - Nothing is skipped.
  - The run stops at the first packet finishing at or past the duration
    bound.
  - Every listener ends holding exactly what adding those deliveries in
    order gives.
- `scenario.dfy` (module `Scenarios`): consequences of `Run`.
  - Raw-codec latency and error bounds.
  - Each codec's position as a multiple of its packet length.
  - The packet count of the two-codec end-to-end setup.
- `options.dfy` (module `Options`): the `Option` wrapper for operations that
  raise on bad input.

Three facts about the code shape the model:

- `tests/test_delta.py` sends the values 0, 10, 20 and 0 through a delta
  codec with 10-bit values and 6-bit deltas. `DeltaCodecs.ExactScenario`
  models that test.
- `Setup.run` checks nothing about its setup. The conditions a setup needs
  are stated as preconditions: `Simulation.SetupReady` and
  `Simulation.ListenersReady`.
- `stats` deletes the prefix before the first metric within the window,
  and deletes nothing if no metric is within it. `Collectors.Trim` follows
  this. `Collectors.TrimSorted` shows that on lists in arrival order every
  kept metric is within the window.

## Model

| member | source | states |
|---|---|---|
| Converters.UValue | src/rclinklab/converters.py:45-46 | the unsigned value of an n-bit pattern is below 2^n |
| Converters.LeadingBit | src/rclinklab/converters.py:45-46 | the leading bit is set exactly when the unsigned value reaches 2^(n-1) |
| Converters.SValue | src/rclinklab/converters.py:45-46 | the two's-complement value of an n-bit pattern lies in [-2^(n-1), 2^(n-1)) and is negative exactly when the leading bit is set |
| Converters.UBits | src/rclinklab/converters.py:41-42 | the unsigned packing of a value below 2^width has exactly `width` bits |
| Converters.UValueOfUBits | src/rclinklab/converters.py:41-46 | unpacking the unsigned packing of a value gives the value back |
| Converters.UBitsOfUValue | src/rclinklab/converters.py:41-46 | packing the unsigned value of a pattern at its own width gives the pattern back |
| Converters.BitsToInt | src/rclinklab/converters.py:45-46 | b2i of a non-empty pattern is a value that fits its width, unsigned or signed |
| Converters.IntToBits | src/rclinklab/converters.py:41-42 | i2b succeeds exactly when the value fits the width (width at least 1), yields exactly `width` bits, and b2i of the result is the value |
| Converters.BitsToIntRoundTrip | src/rclinklab/converters.py:41-46 | i2b of b2i of any non-empty pattern, at its width, is the pattern |
| Converters.IntsToBits | src/rclinklab/converters.py:79-80 | i2b_s succeeds exactly when every value fits, and then piece i is i2b of value i |
| Converters.BitsToInts | src/rclinklab/converters.py:83-84 | b2i_s has one value per piece, value i being b2i of piece i |
| Converters.IntsRoundTrip | src/rclinklab/converters.py:79-84 | b2i_s of i2b_s of in-range values gives the values back, every piece having the requested width |
| Converters.PiecesRoundTrip | src/rclinklab/converters.py:79-84 | i2b_s of b2i_s of equal-width pieces gives the pieces back |
| Converters.JoinIsFlatten | src/rclinklab/converters.py:87-88 | join (a left fold with no initial value) equals right-folded concatenation on every non-empty list |
| Converters.JoinLength | src/rclinklab/converters.py:87-88 | the length of join is the sum of the piece lengths |
| Converters.FlattenAt | src/rclinklab/converters.py:87-88 | piece i of equal-width pieces sits at bits [i*w, (i+1)*w) of their concatenation |
| Converters.JoinUniform | src/rclinklab/converters.py:87-88 | join of n pieces of width w has n*w bits, with piece i at bits [i*w, (i+1)*w) |
| Converters.Chunks | src/rclinklab/converters.py:91-96 | a split of at least w bits is non-empty |
| Converters.ChunksLength | src/rclinklab/converters.py:91-96 | split yields floor(len / w) pieces |
| Converters.ChunksAt | src/rclinklab/converters.py:91-96 | piece i of a split is the slice [i*w, (i+1)*w) of the input |
| Converters.Split | src/rclinklab/converters.py:91-96 | the loop of split appends floor(len / w) slices, the i-th being [i*w, (i+1)*w) |
| Converters.ChunksWidth | src/rclinklab/converters.py:91-96 | every piece of a split has exactly w bits |
| Converters.SplitJoin | src/rclinklab/converters.py:87-96 | split of the join of w-bit pieces gives the pieces back |
| Converters.FlattenChunks | src/rclinklab/converters.py:91-96 | concatenating the pieces of a split gives the input back when its length is a multiple of w |
| Converters.JoinSplit | src/rclinklab/converters.py:87-96 | join of the split of a non-empty input whose length is a multiple of w gives the input back |
| Converters.ChunksIgnoreTrailing | src/rclinklab/converters.py:91-96 | bits after the last whole piece do not change a split |
| Converters.B2A | src/rclinklab/converters.py:29-30 | b2a has floor(len / bits) values; value i is the unsigned reading of bits [i*bits, (i+1)*bits) and lies in [0, 2^bits) |
| Converters.ChunksValues | src/rclinklab/converters.py:29-30 | reading each piece of a split unsigned gives, at index i, the unsigned reading of bits [i*bits, (i+1)*bits) of the input |
| Converters.RoundHalfEven | src/rclinklab/converters.py:33-34 | round gives an integer within 0.5 of its argument, and an even one on a tie |
| Converters.RoundHalfEvenUnique | src/rclinklab/converters.py:33-34 | those two properties determine round's result |
| Converters.RoundHalfEvenMonotone | src/rclinklab/converters.py:33-34 | round never reorders values |
| Converters.RoundHalfEvenInt | src/rclinklab/converters.py:33-34 | an integer rounds to itself |
| Converters.Scaled | src/rclinklab/converters.py:33-34 | a value in [-1, 1] maps linearly into [0, 2^bits - 1] |
| Converters.F2I | src/rclinklab/converters.py:33-34 | f2i maps every value in [-1, 1] to an index in [0, 2^bits) |
| Converters.I2F | src/rclinklab/converters.py:37-38 | i2f maps every index in [0, 2^bits) into [-1, 1] |
| Converters.QuantizeInverse | src/rclinklab/converters.py:33-38 | f2i undoes i2f on every index |
| Converters.QuantizationError | src/rclinklab/converters.py:33-38 | i2f of f2i moves a value in [-1, 1] by at most 1/(2^bits - 1) |
| Converters.F2B | src/rclinklab/converters.py:49-58 | f2b of a value in [-1, 1] is the bits-wide unsigned packing of its f2i index |
| Converters.B2F | src/rclinklab/converters.py:61-68 | b2f of any non-empty pattern lies in [-1, 1] |
| Converters.F2BEnds | src/rclinklab/converters.py:49-58 | f2b maps -1.0 to all zeros and 1.0 to all ones, at every width |
| Converters.ScaledCentre | src/rclinklab/converters.py:33-34 | 0.0 scales to a tie, 2^(bits-1) - 0.5 |
| Converters.F2ICentre | src/rclinklab/converters.py:33-34 | that tie rounds up to the even index 2^(bits-1) |
| Converters.F2BCentre | src/rclinklab/converters.py:49-58 | f2b maps 0.0 to the pattern 100…0 at every width of at least 2 |
| Converters.B2FZeros | src/rclinklab/converters.py:61-68 | b2f reads all zeros as -1.0 |
| Converters.B2FOnes | src/rclinklab/converters.py:61-68 | b2f reads all ones as 1.0 |
| Converters.B2FEnds | src/rclinklab/converters.py:61-68 | b2f reads all zeros as -1.0 and all ones as 1.0, at every width |
| Converters.F2BExamples | src/rclinklab/converters.py:50-57 | the documented 10-bit f2b examples: -1.0, 0.0 and 1.0 give 0000000000, 1000000000 and 1111111111 |
| Converters.B2FExamples | src/rclinklab/converters.py:62-67 | the documented 4-bit b2f examples: 0000 gives -1.0 and 1111 gives 1.0 |
| Converters.F2IVec | src/rclinklab/converters.py:75-76 | f2i_s applies f2i to every channel, in order |
| Converters.I2FVec | src/rclinklab/converters.py:71-72 | i2f_s applies i2f to every index, in order |
| RawCodecs.RawCodec.Transmit | src/rclinklab/codecs/raw.py:9-10 | transmit succeeds exactly when the vector is non-empty and every value is in [0, 2^bits); the packet then has len * bits bits |
| RawCodecs.RawCodec.Receive | src/rclinklab/codecs/raw.py:12-13 | receive yields floor(len / bits) values, each in [0, 2^bits) |
| RawCodecs.TransmitLayout | src/rclinklab/codecs/raw.py:9-10 | channel i sits at bits [i*bits, (i+1)*bits) of the packet, as its unsigned packing |
| RawCodecs.ReceiveTransmit | src/rclinklab/codecs/raw.py:9-13 | receive of transmit is the identity on every vector transmit accepts |
| RawCodecs.TransmitReceive | src/rclinklab/codecs/raw.py:9-13 | every non-empty packet of whole channels is the transmission of what receive decodes from it |
| RawCodecs.ReceiveIgnoresTrailing | src/rclinklab/codecs/raw.py:12-13 | bits after the last whole channel do not change what receive returns |
| DeltaCodecs.MaxDelta | src/rclinklab/codecs/delta.py:14-16 | the largest difference that fits a signed b-bit field: it fits, and one more does not |
| DeltaCodecs.MinDelta | src/rclinklab/codecs/delta.py:14-16 | the magnitude of the most negative difference that fits a signed b-bit field: its negation fits, and one below does not |
| DeltaCodecs.Fit | src/rclinklab/codecs/delta.py:14-16 | fit lands in the signed b-bit range, leaves in-range values unchanged, and clamps the rest to the nearer end |
| DeltaCodecs.FitMonotone | src/rclinklab/codecs/delta.py:14-16 | fit never reorders values |
| DeltaCodecs.Deltas | src/rclinklab/codecs/delta.py:28-30 | the difference sent on channel i is fit(data[i] - last[i]) |
| DeltaCodecs.DeltasFit | src/rclinklab/codecs/delta.py:28-32 | every difference sent fits the delta width, so the signed packing cannot fail |
| DeltaCodecs.AddVec | src/rclinklab/codecs/delta.py:31 | the vector addition is elementwise |
| DeltaCodecs.EncodeDeltas | src/rclinklab/codecs/delta.py:32 | the packet has channels * deltaBits bits |
| DeltaCodecs.DecodeDeltas | src/rclinklab/codecs/delta.py:35 | the packet decodes to floor(len / b) signed b-bit differences |
| DeltaCodecs.DecodeEncode | src/rclinklab/codecs/delta.py:28-38 | the receiver decodes exactly the differences the transmitter encoded |
| DeltaCodecs.EncodeDecode | src/rclinklab/codecs/delta.py:28-38 | every packet of whole differences is the encoding of what it decodes to |
| DeltaCodecs.DeltasExact | src/rclinklab/codecs/delta.py:28-31 | when every difference fits, the transmitter's new last vector is the data itself |
| DeltaCodecs.StepApproaches | src/rclinklab/codecs/delta.py:28-31 | one packet moves a channel towards its target by at most one delta range and never overshoots |
| DeltaCodecs.TrackConverges | tests/test_delta.py:20-28 | sending a constant target n times reaches it once n deltas cover the distance |
| DeltaCodecs.TrackStays | tests/test_delta.py:20-28 | once reached, a constant target is kept |
| DeltaCodecs.DeltaCodec.constructor | src/rclinklab/codecs/delta.py:24-26 | both ends start in agreement, on the zero vector |
| DeltaCodecs.DeltaCodec.Transmit | src/rclinklab/codecs/delta.py:28-32 | transmit advances the transmitter's last vector, in place, by the saturated differences, and returns their signed packing |
| DeltaCodecs.DeltaCodec.Receive | src/rclinklab/codecs/delta.py:34-38 | receive adds the decoded differences to the receiver's last vector, stores the sum and returns it |
| DeltaCodecs.SendAndReceive | tests/test_delta.py:9-10 | over a loss-free link both ends stay in agreement, and a vector whose differences fit arrives exactly |
| DeltaCodecs.SendWithin | tests/test_delta.py:13-17 | at 6-bit deltas, a one-channel value within [-32, 32) of the last arrives exactly |
| DeltaCodecs.ExactScenario | tests/test_delta.py:13-17 | at 10 bits and 6-bit deltas, the values 0, 10, 20 and 0 each arrive exactly |
| DeltaCodecs.OverflowScenario | tests/test_delta.py:20-28 | at 8 bits and 3-bit deltas, after 0 the value 100 arrives exactly within 50 packets |
| LinkPackets.BitsToTsZero | src/rclinklab/simulate.py:18-19 | bit position 0 is time 0 |
| LinkPackets.BitsToTsMonotone | src/rclinklab/simulate.py:18-19 | at a positive bit rate, a later position never has an earlier time stamp |
| LinkPackets.BitsToTsExact | src/rclinklab/simulate.py:18-19 | when the bit rate divides the microseconds, the time stamp is the exact quotient |
| LinkPackets.DefaultBitTime | src/rclinklab/simulate.py:15-19 | at the default 20 000 bits per second, every bit lasts 50 microseconds |
| LinkPackets.CeilDiv | src/rclinklab/simulate.py:170 | the integer ceiling r of a / m satisfies (r-1)*m < a <= r*m |
| LinkPackets.DurationInBits | src/rclinklab/simulate.py:170 | the bound exists exactly when a duration is given, and is the least bit count covering bitrate * duration microseconds |
| LinkPackets.MakeLinkPacket | src/rclinklab/simulate.py:44-51 | a link packet copies the transmit side from TxData and takes the receive side as given |
| TransmitQueues.InsertionPoint | src/rclinklab/simulate.py:139-141 | the insertion point follows every entry whose key does not exceed the new key and precedes the first larger one |
| TransmitQueues.InsertByKey | src/rclinklab/simulate.py:139-141 | insertion adds exactly one entry |
| TransmitQueues.InsertByKeyShape | src/rclinklab/simulate.py:139-141 | the stable sort puts the new entry after all entries with a key no larger, keeping the others' order |
| TransmitQueues.InsertByKeyPermutes | src/rclinklab/simulate.py:139-141 | the queue after insertion is the old queue plus the new entry, as a multiset |
| TransmitQueues.InsertByKeyAt | src/rclinklab/simulate.py:139-141 | entry n after insertion comes from the old queue before the insertion point, is the new entry at it, and is shifted by one after it |
| TransmitQueues.InsertByKeySorted | src/rclinklab/simulate.py:139-141 | insertion keeps the queue sorted by key |
| TransmitQueues.TransmitQueue.constructor | src/rclinklab/simulate.py:133-134 | a new queue is empty |
| TransmitQueues.TransmitQueue.Next | src/rclinklab/simulate.py:136-137 | next removes and returns the head, whose key is no larger than any remaining key |
| TransmitQueues.TransmitQueue.Transmit | src/rclinklab/simulate.py:139-141 | transmit inserts the packet under the key start + packet length, by the stable sort, adding exactly that entry |
| Collectors.Evicted | src/rclinklab/simulate.py:68-70 | eviction drops exactly the leading packets at least the limit older than the newest, stopping at the first younger one |
| Collectors.CollectorAdd | src/rclinklab/simulate.py:65-70 | add changes only the packet's own codec entry |
| Collectors.CollectorAddWindowed | src/rclinklab/simulate.py:65-70 | adding a packet no older than those kept keeps the deque ordered and within the window; the packet is last, and only packets at least the limit older are dropped, from the front; without a limit nothing is dropped |
| Collectors.SortedAppend | src/rclinklab/simulate.py:65-67 | appending a packet no older than any kept keeps arrival order |
| Collectors.SuffixSorted | src/rclinklab/simulate.py:68-70 | dropping from the front keeps arrival order |
| Collectors.EvictWindowed | src/rclinklab/simulate.py:68-70 | after eviction every kept packet is within the limit of the newest |
| Collectors.Collector.constructor | src/rclinklab/simulate.py:61-63 | a new collector holds no packets and keeps its window |
| Collectors.Collector.Add | src/rclinklab/simulate.py:65-70 | the append and the eviction loop leave exactly the packet map of CollectorAdd |
| Collectors.Errors | src/rclinklab/simulate.py:87 | the error vector is the elementwise absolute difference of received and sent values |
| Collectors.MaxOf | src/rclinklab/simulate.py:88 | max is an element that bounds every element |
| Collectors.Metric | src/rclinklab/simulate.py:86-88 | a metric records the packet's receive time stamp and its latency, rx_ts - tx_ts |
| Collectors.RollingAdd | src/rclinklab/simulate.py:86-89 | add appends the packet's metric to its own codec's list and changes no other codec |
| Collectors.FirstWithin | src/rclinklab/simulate.py:92-97 | the first index whose metric is at most the limit older than the newest, or the length if there is none |
| Collectors.TrimWindow | src/rclinklab/simulate.py:91-97 | with a non-negative limit, stats keeps a non-empty suffix ending at the newest metric, starting within the limit, and drops only metrics more than the limit older |
| Collectors.TrimSorted | src/rclinklab/simulate.py:91-97 | on a list in arrival order, every kept metric is within the limit of the newest |
| Collectors.TrimNegative | src/rclinklab/simulate.py:91-97 | on a list in arrival order, a negative limit deletes nothing |
| Collectors.TrimIdempotent | src/rclinklab/simulate.py:91-97 | trimming a second time deletes nothing more |
| Collectors.MaxLatencyIsMax | src/rclinklab/simulate.py:98-104 | the latency maximum is at least 0, bounds every latency, and is 0 or one of them |
| Collectors.MaxErrorIsMax | src/rclinklab/simulate.py:98-104 | the error maximum is at least 0.0, bounds every per-packet maximum, and is 0.0 or one of them |
| Collectors.SumLatencyBound | src/rclinklab/simulate.py:98-106 | the latency sum is at most the count times the maximum |
| Collectors.MeanLatencyAtMostMax | src/rclinklab/simulate.py:98-106 | the mean latency of a window never exceeds its maximum latency |
| Collectors.TrimFront | src/rclinklab/simulate.py:92-97 | the deletion loop of stats leaves exactly the trimmed list |
| Collectors.Summarise | src/rclinklab/simulate.py:98-107 | the accumulation loop of stats gives exactly the maxima and means of the window |
| Collectors.RollingStatsCollector.constructor | src/rclinklab/simulate.py:82-84 | a new rolling collector holds no metrics and keeps its window |
| Collectors.RollingStatsCollector.Add | src/rclinklab/simulate.py:86-89 | add leaves exactly the metric map of RollingAdd |
| Collectors.RollingStatsCollector.Stats | src/rclinklab/simulate.py:91-108 | stats trims the codec's list in place and returns the maxima and means of what remains |
| Simulation.PacketBitsPositive | src/rclinklab/simulate.py:140 | every packet of a ready codec has at least one bit, so its completion key lies after its start |
| Simulation.TransmitFor | src/rclinklab/simulate.py:146-152 | _transmit samples the source at the start's time stamp, quantises with f2i_s and encodes; a delta codec's transmitter advances |
| Simulation.ReceiveFor | src/rclinklab/simulate.py:155-159 | _receive returns the transmitted indices for a raw codec, and the receiver's last vector moved by the saturated differences for a delta codec, then maps them back with i2f_s; both ends agree again |
| Simulation.AfterAdd | src/rclinklab/simulate.py:163-164 | a listener's add keeps the listener's kind |
| Simulation.NotifyListeners | src/rclinklab/simulate.py:162-164 | every listener, in list order, ends holding what its add of the packet gives |
| Simulation.ViewAfter | src/rclinklab/simulate.py:162-164 | adding a sequence of deliveries keeps each listener's kind |
| Simulation.Lead | src/rclinklab/codecs/delta.py:29-31 | the offset of a delta codec's transmitter over its receiver: added to the receiver's last vector it gives the transmitter's |
| Simulation.AddVecSwap | src/rclinklab/codecs/delta.py:31-37 | adding the offset and a difference vector to the receiver's last vector, in either order, gives the same vector |
| Simulation.Initial | src/rclinklab/codecs/delta.py:9-11 | before the first packet every delta codec holds the ends it is given, fresh or left by an earlier run, and is settled with its offset; a raw codec holds nothing |
| Simulation.InsertMembers | src/rclinklab/simulate.py:139-141 | the entries after an insertion are the old ones and the new one |
| Simulation.InsertDistinct | src/rclinklab/simulate.py:139-141 | inserting a packet of a codec with nothing queued keeps one entry per codec |
| Simulation.InsertLexSorted | src/rclinklab/simulate.py:139-141 | the stable sort orders entries with equal finish by their start and then their codec, when the new entry comes no earlier than any queued one of the same finish |
| Simulation.PendingKept | src/rclinklab/simulate.py:179-191 | a codec with nothing in the queue can change state and deliver without disturbing the others' entries |
| Simulation.OtherCodecUnaffected | src/rclinklab/simulate.py:179-191 | deliveries of one codec leave where the others stand unchanged |
| Simulation.BudgetInsert | src/rclinklab/simulate.py:188-191 | the remaining bit budget of a queue grows by exactly the new entry's share |
| Simulation.TransmitCodec | src/rclinklab/simulate.py:146-152 | _transmit on the heap changes only the transmitting codec's state |
| Simulation.SendFrom | src/rclinklab/simulate.py:178 | _transmit then queue.transmit: the new entry is keyed by start + packet length and carries the sampled, quantised vector |
| Simulation.SentPending | src/rclinklab/simulate.py:178 | the packet just sent is pending, and the ones already queued stay pending |
| Simulation.Enqueue | src/rclinklab/simulate.py:191 | a codec with nothing in flight sends its next packet from where its last one finished |
| Simulation.SeedStep | src/rclinklab/simulate.py:177-178 | codec n's first packet, sent from position 0, extends the queue seeded by codecs 0 to n-1 |
| Simulation.SeededOk | src/rclinklab/simulate.py:177-178 | once every codec has sent its first packet, the queue holds one pending packet per codec, in order |
| Simulation.SeedSettled | src/rclinklab/simulate.py:177-178 | a codec not yet used is settled on its initial vector |
| Simulation.SeedQueue | src/rclinklab/simulate.py:177-178 | the seeding loop sends one packet per codec from position 0, leaving a queue in order before any delivery |
| Simulation.TailOrdered | src/rclinklab/simulate.py:180 | removing the head keeps one entry per codec and the order |
| Simulation.PopHead | src/rclinklab/simulate.py:180 | the queue is never empty, and its head is a pending packet no earlier than the last delivery |
| Simulation.PopRest | src/rclinklab/simulate.py:180 | the entries behind the head stay pending, come no earlier than it, and hold every other codec once |
| Simulation.PopIds | src/rclinklab/simulate.py:180 | every codec other than the head's still has an entry |
| Simulation.ReceiveCodec | src/rclinklab/simulate.py:155-159 | _receive on the heap changes only the receiving codec's state |
| Simulation.ReceiveHead | src/rclinklab/simulate.py:180-185 | the head is popped, decoded by its codec, and stamped at its finishing bit's time |
| Simulation.DeliveredHead | src/rclinklab/simulate.py:180-185 | the packet received from the head is the next delivery of the specification |
| Simulation.ReceiveKeepsQueue | src/rclinklab/simulate.py:180 | receiving the head leaves the rest pending, no earlier than what was received, one entry per other codec |
| Simulation.NextDelivery | src/rclinklab/simulate.py:180-183 | the packet in flight that finishes first is received next, and comes no earlier than the previous delivery |
| Simulation.DeliveredAppend | src/rclinklab/simulate.py:179-186 | appending a delivery keeps the earlier ones valid |
| Simulation.ChronologicalAppend | src/rclinklab/simulate.py:179-186 | a delivery no earlier than the last keeps the record in time order |
| Simulation.CompleteOwn | src/rclinklab/simulate.py:188-191 | the codec just received has its next packet, from that packet's finish, still ahead |
| Simulation.CompleteOther | src/rclinklab/simulate.py:188-191 | every other codec's next packet is its queued one, which is no earlier than the delivery |
| Simulation.CompleteAfter | src/rclinklab/simulate.py:179-191 | after a delivery no codec's next packet comes earlier, and every delta receiver holds its last delivered vector |
| Simulation.InsertAfter | src/rclinklab/simulate.py:191 | re-sending from the delivery's finish keeps every entry no earlier than the delivery, and after every queued entry of the same finish, by start and codec |
| Simulation.InsertCovers | src/rclinklab/simulate.py:191 | re-sending the delivered codec gives every codec an entry again |
| Simulation.EnqueueKeepsQueue | src/rclinklab/simulate.py:188-191 | re-sending keeps the queue in order and strictly shrinks the bit budget left before the bound |
| Simulation.DeliveryRecorded | src/rclinklab/simulate.py:179-186 | a delivery taken from an ordered queue extends the record of the run, which stays complete |
| Simulation.RecordedAppend | src/rclinklab/simulate.py:179-186 | the record extended by the next delivery is still valid and in time order |
| Simulation.ReceiveRecorded | src/rclinklab/simulate.py:180-186 | receiving the packet that finishes first extends the record by one delivery |
| Simulation.ReceiveAndNotify | src/rclinklab/simulate.py:180-186 | receive, then notify: every listener ends holding the record extended by this delivery |
| Simulation.SendNext | src/rclinklab/simulate.py:191 | the codec just received sends again; the queue stays in order, the budget shrinks, and no listener changes |
| Simulation.RunAtStop | src/rclinklab/simulate.py:188-189 | the deliveries up to the first packet finishing at or past the bound form a complete run |
| Simulation.BeforeBound | src/rclinklab/simulate.py:188-189 | while the engine continues, every delivery so far finished before the bound |
| Simulation.Step | src/rclinklab/simulate.py:179-191 | one pass of the loop: stop exactly when the packet finishes at or past the bound; otherwise the queue is in order again with a smaller budget |
| Simulation.RunLoop | src/rclinklab/simulate.py:179-191 | the loop ends, and the deliveries form a run that every listener has received, in order |
| Simulation.LeadAfterSent | src/rclinklab/codecs/delta.py:28-31 | a delta codec that has sent one packet more than its receiver took keeps the two ends apart by the old offset plus that packet's saturated differences |
| Simulation.LeftAtStop | src/rclinklab/simulate.py:188-191 | when the loop breaks, the codec just received is settled on its last delivered vector, and every other codec has sent exactly its next packet, sampled where its last one finished |
| Simulation.Simulate | src/rclinklab/simulate.py:166-191 | simulate hands the listeners exactly the deliveries of a run: time-ordered, nothing skipped, stopping at the first packet at or past the duration; codecs may start with their ends apart, and end as LeftAtStop states |
| Scenarios.CountOf | src/rclinklab/simulate.py:179-191 | a codec delivers at most as many packets as the run has |
| Scenarios.DeliveredPrefix | src/rclinklab/simulate.py:179-186 | each delivery but the last stays valid in the shorter record |
| Scenarios.LastPositionCount | src/rclinklab/simulate.py:188-191 | codecs send back to back from bit 0, so a codec's last packet finishes at its delivery count times its packet length |
| Scenarios.LastPositionBelow | src/rclinklab/simulate.py:188-189 | if every delivery finished before the bound, so did every codec's last packet |
| Scenarios.Latency | src/rclinklab/simulate.py:181 | at the default bit rate, a packet arrives 50 microseconds per bit after it was sampled |
| Scenarios.RawError | src/rclinklab/codecs/raw.py:9-13 | each channel received over a raw codec is within one quantisation step, 1/(2^bits - 1), of the sampled value |
| Scenarios.EndToEndBound | tests/test_all.py:27 | 3 000 000 microseconds at the default bit rate is 60 000 bits |
| Scenarios.StopLast | src/rclinklab/simulate.py:188-189 | the packet that stops a bounded run started before the bound, finished at or past it, and is its codec's last |
| Scenarios.StopOthers | src/rclinklab/simulate.py:188-189 | when a bounded run stops, every other codec's last packet finished before the bound |
| Scenarios.RawLatencies | tests/test_all.py:38-40 | every packet of a raw codec with 4 channels at 10 bits arrives 2000 microseconds after it was sampled |
| Scenarios.EndToEnd | tests/test_all.py:19-40 | in the two-codec setup the raw codec's packet ends the run, and it delivers exactly 1500 packets, each with latency 2000 microseconds |
| Scenarios.EndToEndDeltaLast | tests/test_all.py:19-33 | in the two-codec setup the delta codec's last delivered packet finishes at bit 59968 |
| Scenarios.EndToEndLead | tests/test_all.py:19-33 | after the two-codec run the delta receiver holds its last delivered vector, and the transmitter has moved ahead by one more packet, sampled at 2 998 400 microseconds; this is the state in which the second source's run starts |

## Left out

- The logging call, `TimeService.wait_until` and the choice between real and simulated time are not modelled. In simulated time the wait has no effect on the packets.
- `Setup` and `Setup.run` are not modelled: `Simulation.Simulate` takes the setup's fields as parameters.
- The source's `start` context manager and the sources themselves are not modelled. A source is a function from a time stamp to a channel vector.
- `PacketListener` is modelled as a closed datatype over the two listener classes of the core, not as an open abstract base class.
- Numpy arrays are modelled as sequences. `iarray` and `farray` are identities. Vectors of different lengths, which numpy would broadcast or reject, are excluded by preconditions.
- Floating point is modelled with exact reals. The round-half-to-even of `round` is exact, but float rounding in `/`, `*` and `mean` is not modelled.
- Numpy's 64-bit integer wrap-around in the delta codec's state is not modelled. Integers are unbounded.
- The model has its own `BasicStats`/`WindowStats` pair (maximum and mean per window) instead of the `BasicStats` and `Stats` classes of the statistics module. `stats.calculate` is not part of this model.
- The end-to-end test's exact error figures, and its second source (a recorded flight log), depend on floating-point sampling of a sine. `Scenarios.RawError` proves only the bound of one quantisation step.
- Simulation.Simulate: with no duration the source loops forever. The model stops it after `cutoff` deliveries. The sequence of deliveries is a ghost record.
- Simulation.Simulate: listeners must be distinct objects, disjoint from the codecs' objects. Aliasing between listeners, or between listeners and codecs, is not modelled.
- DeltaCodecs.DeltaCodec.Receive: the vector it returns is modelled as a value. In the source it is the same array as the stored state, so a caller mutating it would change the codec.
- DeltaCodecs.DeltaCodec.Receive: requires a packet of exactly one piece per channel. Otherwise the numpy addition would fail or broadcast.
- TransmitQueues.TransmitQueue.Next: requires a non-empty queue, where the source's `pop(0)` raises. `Simulation.PopHead` proves the engine never finds it empty.
- Collectors.Collector.Add: requires a positive window when one is given. With zero or a negative window the source empties the deque and then fails on `p[0]`.
- Collectors.RollingStatsCollector.Add: requires non-empty error vectors of equal length, since `mean` and `max` raise on an empty vector.
- Collectors.RollingStatsCollector.Stats: requires at least one metric for the codec, since the source fails on `[-1]` of an empty list.
- Converters.Join: requires a non-empty list, since `reduce` without an initial value raises on an empty one.
- Converters.Split: requires a positive width, since the source divides by it.
- Converters.F2I: no clamping, as in the source. Its range guarantee holds only for values in [-1, 1].
- Converters.I2F: requires at least one bit, since 2^0 - 1 = 0 is a divisor.
- Converters.BitsToInt: requires a non-empty pattern. The source's `ba2int` raises on an empty bitarray; the model does not return that error.
- Converters.B2F: requires a non-empty pattern, for the same reason as `Converters.BitsToInt`.
- DeltaCodecs.DeltaCodec.constructor: requires at least one channel and a delta width of at least 1. The source builds such a codec and fails only at the first transmit.
- DeltaCodecs.Fit: requires a width of at least 1. At width 0 the source's bounds are both the float -0.5 (`2 ** -1` is a float), so `fit` returns -0.5 for every value, which no later packing accepts.
- LinkPackets.BitsToTs: requires a non-zero bit rate. The source divides by the bit rate and raises `ZeroDivisionError` at zero.
- The codecs' signed-packing option for the raw codec, and any codec other than raw and delta, are not modelled.
