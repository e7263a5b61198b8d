/**
 * The transmit queue: packets in flight, each keyed by the bit position at
 * which its last bit leaves the link, kept sorted by that key. The sort is
 * stable, so packets that finish at the same position leave in the order
 * they were queued.
 */
module TransmitQueues {
  import opened LinkPackets

  /** A queued packet: its completion position and its transmit-side record. */
  type Entry = (int, TxData)

  predicate SortedByKey(q: seq<Entry>)
  {
    forall i, j :: 0 <= i < j < |q| ==> q[i].0 <= q[j].0
  }

  /** The number of leading entries whose key does not exceed `key`. */
  function InsertionPoint(q: seq<Entry>, key: int): (k: nat)
    ensures k <= |q|
    ensures forall i :: 0 <= i < k ==> q[i].0 <= key
    ensures k < |q| ==> q[k].0 > key
  {
    if q == [] || q[0].0 > key then 0 else 1 + InsertionPoint(q[1..], key)
  }

  /**
   * The list a stable sort by key makes of a key-sorted list with `e`
   * appended: `e` goes after every entry whose key is not larger than its own.
   */
  function InsertByKey(q: seq<Entry>, e: Entry): (r: seq<Entry>)
    ensures |r| == |q| + 1
  {
    if q == [] || q[0].0 > e.0 then [e] + q else [q[0]] + InsertByKey(q[1..], e)
  }

  /** Where `e` lands: the entries before it keep their order, then `e`, then the rest in their order. */
  lemma {:induction false} InsertByKeyShape(q: seq<Entry>, e: Entry)
    ensures InsertByKey(q, e) == q[..InsertionPoint(q, e.0)] + [e] + q[InsertionPoint(q, e.0)..]
  {
    if q != [] && q[0].0 <= e.0 {
      InsertByKeyShape(q[1..], e);
      var k := InsertionPoint(q[1..], e.0);
      assert q[..k + 1] == [q[0]] + q[1..][..k];
      assert q[k + 1..] == q[1..][k..];
    }
  }

  /** Inserting adds exactly `e`: nothing is lost or duplicated. */
  lemma {:induction false} InsertByKeyPermutes(q: seq<Entry>, e: Entry)
    ensures multiset(InsertByKey(q, e)) == multiset(q) + multiset{e}
  {
    if q != [] && q[0].0 <= e.0 {
      InsertByKeyPermutes(q[1..], e);
      assert q == [q[0]] + q[1..];
    }
  }

  /** Entry `n` after inserting `e`: from `q` before the insertion point, `e` at it, shifted after it. */
  lemma InsertByKeyAt(q: seq<Entry>, e: Entry, n: nat)
    requires n <= |q|
    ensures var k := InsertionPoint(q, e.0);
      InsertByKey(q, e)[n] == if n < k then q[n] else if n == k then e else q[n - 1]
  {
    InsertByKeyShape(q, e);
  }

  /** Inserting keeps a key-sorted list sorted. */
  lemma InsertByKeySorted(q: seq<Entry>, e: Entry)
    requires SortedByKey(q)
    ensures SortedByKey(InsertByKey(q, e))
  {
    var r := InsertByKey(q, e);
    forall i, j | 0 <= i < j < |r|
      ensures r[i].0 <= r[j].0
    {
      InsertByKeyAt(q, e, i);
      InsertByKeyAt(q, e, j);
    }
  }

  /** The queue of packets in flight. */
  class TransmitQueue {
    var entries: seq<Entry>

    ghost predicate Valid()
      reads this
    {
      SortedByKey(entries)
    }

    constructor ()
      ensures Valid() && entries == []
    {
      entries := [];
    }

    /** next: removes and returns the head, whose key is the smallest in the queue. */
    method Next() returns (e: Entry)
      requires Valid() && |entries| > 0
      modifies this
      ensures Valid()
      ensures e == old(entries)[0] && entries == old(entries)[1..]
      ensures forall i :: 0 <= i < |entries| ==> e.0 <= entries[i].0
    {
      e := entries[0];
      entries := entries[1..];
    }

    /** transmit: queues `data` under the key start + |ota_data|, by a stable sort on keys. */
    method Transmit(data: TxData)
      requires Valid()
      modifies this
      ensures Valid()
      ensures entries == InsertByKey(old(entries), (data.start + |data.otaData|, data))
      ensures multiset(entries) == multiset(old(entries)) + multiset{(data.start + |data.otaData|, data)}
    {
      var e := (data.start + |data.otaData|, data);
      InsertByKeySorted(entries, e);
      InsertByKeyPermutes(entries, e);
      entries := InsertByKey(entries, e);
    }
  }
}
