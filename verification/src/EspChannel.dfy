/** One direction of a Child SA end to end: concurrent senders drawing sequence numbers
    from the shared counter, and a receiver behind a network that loses, duplicates,
    reorders and injects packets. */
module EspChannel {
  import opened Bytes
  import opened Crypto
  import opened Esp
  import Replay

  // ----- sequence allocation by compare-and-swap -----

  /** Where one Encrypt call stands in its allocation loop. */
  datatype Caller = Looping | Loaded(cur: uint32)

  /** The counter, the callers, and the numbers handed out so far with their holder. */
  datatype Allocation = Allocation(counter: uint32, callers: seq<Caller>, issued: seq<(nat, uint32)>)

  /** A caller loads the counter, or tries to swap in the successor of what it loaded. */
  datatype Move = Load(caller: nat) | Cas(caller: nat)

  function Step(a: Allocation, m: Move): Allocation {
    match m
    case Load(t) =>
      // At 2^32-1 the call returns with ErrSeqExhausted and nothing changes.
      if t >= |a.callers| || a.counter == SEQ_MAX then a
      else a.(callers := a.callers[t := Loaded(a.counter)])
    case Cas(t) =>
      if t >= |a.callers| || a.callers[t].Looping? then a
      else if a.counter == a.callers[t].cur then
        Allocation(a.callers[t].cur + 1 - Overflow(a.callers[t].cur), a.callers[t := Looping],
                   a.issued + [(t, a.callers[t].cur + 1 - Overflow(a.callers[t].cur))])
      else a.(callers := a.callers[t := Looping])
  }

  /** The uint32 wrap-around of cur + 1, which the load guard keeps from happening. */
  function Overflow(cur: uint32): nat {
    if cur == SEQ_MAX then 0x1_0000_0000 else 0
  }

  function Steps(a: Allocation, moves: seq<Move>): Allocation
    decreases moves
  {
    if moves == [] then a else Steps(Step(a, moves[0]), moves[1..])
  }

  ghost predicate Exact(a: Allocation) {
    && |a.issued| == a.counter
    && (forall i :: 0 <= i < |a.issued| ==> a.issued[i].1 == i + 1)
    && (forall t :: 0 <= t < |a.callers| && a.callers[t].Loaded? ==> a.callers[t].cur < SEQ_MAX && a.callers[t].cur <= a.counter)
  }

  lemma {:induction false} StepsKeepExact(a: Allocation, moves: seq<Move>)
    requires Exact(a)
    ensures Exact(Steps(a, moves))
    decreases moves
  {
    if moves != [] {
      StepsKeepExact(Step(a, moves[0]), moves[1..]);
    }
  }

  /** Any number of concurrent callers, any interleaving of their loads and swaps: the
      numbers issued are exactly 1..counter, each once. */
  lemma IssuedExactlyOnce(callers: nat, moves: seq<Move>)
    ensures var a := Steps(Allocation(0, seq(callers, _ => Looping), []), moves);
            && |a.issued| == a.counter <= SEQ_MAX
            && (forall i :: 0 <= i < |a.issued| ==> 0 < a.issued[i].1 == i + 1)
            && (forall i, j :: 0 <= i < j < |a.issued| ==> a.issued[i].1 != a.issued[j].1)
  {
    StepsKeepExact(Allocation(0, seq(callers, _ => Looping), []), moves);
  }

  /** No AEAD nonce repeats under one key: the numbers differ, so the IVs do. */
  lemma NoncesNeverRepeat(callers: nat, moves: seq<Move>, encr: Bytes, i: nat, j: nat)
    requires |encr| >= SALT_LEN
    requires i < j < |Steps(Allocation(0, seq(callers, _ => Looping), []), moves).issued|
    ensures var issued := Steps(Allocation(0, seq(callers, _ => Looping), []), moves).issued;
            Nonce(encr, Be64(issued[i].1)) != Nonce(encr, Be64(issued[j].1))
  {
    var issued := Steps(Allocation(0, seq(callers, _ => Looping), []), moves).issued;
    IssuedExactlyOnce(callers, moves);
    var x, y := issued[i].1, issued[j].1;
    U64OfBe64(x);
    U64OfBe64(y);
    assert Nonce(encr, Be64(x))[SALT_LEN..] == Be64(x);
    assert Nonce(encr, Be64(y))[SALT_LEN..] == Be64(y);
  }

  /** The loop is lock-free: a swap fails only when another caller issued a number since
      this one loaded the counter. */
  lemma FailedSwapMeansProgress(a: Allocation, t: nat)
    requires Exact(a) && t < |a.callers| && a.callers[t].Loaded?
    ensures Step(a, Cas(t)).issued == a.issued ==> a.callers[t].cur < |a.issued|
  {}

  // ----- the channel -----

  /** A datagram handed to Encrypt, with the random IV the CBC suite drew for it, or one
      whose number was burned because no IV could be drawn. */
  datatype Sent = Sent(inner: Bytes, iv: Bytes) | Burned

  /** The i-th call used sequence number i + 1. */
  predicate OnWire(sent: seq<Sent>, i: nat) {
    i < |sent| <= SEQ_MAX && sent[i].Sent? && |sent[i].iv| == CBC_IV_LEN
  }

  function WireOf(c: Primitives, d: Direction, sent: seq<Sent>, i: nat): Bytes
    requires KeysFit(d) && OnWire(sent, i)
  {
    Packet(c, d, i + 1, sent[i].iv, sent[i].inner)
  }

  /** What the network hands the receiver: some copy of a packet sent earlier, or a
      packet that fails authentication. */
  datatype Arrival = Copy(index: nat) | Forged(pkt: Bytes)

  ghost predicate Network(c: Primitives, d: Direction, sent: seq<Sent>, arrivals: seq<Arrival>)
    requires KeysFit(d)
  {
    forall k :: 0 <= k < |arrivals| ==>
         match arrivals[k]
         case Copy(i) => OnWire(sent, i)
         case Forged(pkt) => Inspect(c, d, pkt) == Reject
  }

  function BytesOf(c: Primitives, d: Direction, sent: seq<Sent>, a: Arrival): Bytes
    requires KeysFit(d) && (a.Copy? ==> OnWire(sent, a.index))
  {
    match a
    case Copy(i) => WireOf(c, d, sent, i)
    case Forged(pkt) => pkt
  }

  /** The receiver's accepted numbers after a run of arrivals. */
  ghost function Received(c: Primitives, d: Direction, sent: seq<Sent>, size: nat, arrivals: seq<Arrival>): Replay.Seen
    requires KeysFit(d) && Network(c, d, sent, arrivals)
    decreases arrivals
  {
    if arrivals == [] then Replay.NOTHING else
    var before := arrivals[..|arrivals| - 1];
    Moved(c, d, Received(c, d, sent, size, before), size, BytesOf(c, d, sent, arrivals[|arrivals| - 1]))
  }

  /** What the k-th arrival delivers. */
  ghost function DeliveredAt(c: Primitives, d: Direction, sent: seq<Sent>, size: nat, arrivals: seq<Arrival>, k: nat): Option<Bytes>
    requires KeysFit(d) && Network(c, d, sent, arrivals) && k < |arrivals|
  {
    Delivered(c, d, Received(c, d, sent, size, arrivals[..k]), size, BytesOf(c, d, sent, arrivals[k]))
  }

  /** The window calls a run amounts to; a forged packet is worth the never-valid 0. */
  function Calls(arrivals: seq<Arrival>): (calls: seq<nat>)
    ensures |calls| == |arrivals|
  {
    seq(|arrivals|, (k: nat) => if k < |arrivals| && arrivals[k].Copy? then arrivals[k].index + 1 else 0)
  }

  lemma CopyArrives(c: Primitives, d: Direction, sent: seq<Sent>, i: nat, s: Replay.Seen, size: nat)
    requires Laws(c) && KeysFit(d) && OnWire(sent, i)
    ensures Moved(c, d, s, size, WireOf(c, d, sent, i)) == Replay.Record(s, size, i + 1)
    ensures Delivered(c, d, s, size, WireOf(c, d, sent, i)) ==
            if Replay.Fresh(s, size, i + 1) then Some(sent[i].inner) else None
  {
    InspectPacket(c, d, i + 1, sent[i].iv, sent[i].inner);
  }

  lemma {:induction false} ReceivedIsRecordAll(c: Primitives, d: Direction, sent: seq<Sent>, size: nat, arrivals: seq<Arrival>)
    requires Laws(c) && KeysFit(d) && Network(c, d, sent, arrivals)
    ensures Received(c, d, sent, size, arrivals) == Replay.RecordAll(Replay.NOTHING, size, Calls(arrivals))
    decreases arrivals
  {
    hide Inspect, WireOf;
    if arrivals != [] {
      var n := |arrivals| - 1;
      ReceivedIsRecordAll(c, d, sent, size, arrivals[..n]);
      assert Calls(arrivals) == Calls(arrivals[..n]) + [Calls(arrivals)[n]];
      Replay.RecordAllSplit(Replay.NOTHING, size, Calls(arrivals[..n]), [Calls(arrivals)[n]]);
      if arrivals[n].Copy? {
        CopyArrives(c, d, sent, arrivals[n].index, Received(c, d, sent, size, arrivals[..n]), size);
      }
    }
  }

  /** The k-th arrival delivers exactly when it is an authentic copy whose number the
      window accepts, and then it delivers the very bytes that were sent; the window moves
      as for that number, and not at all for a packet that fails authentication. */
  lemma DeliveredExactly(c: Primitives, d: Direction, sent: seq<Sent>, size: nat, arrivals: seq<Arrival>, k: nat)
    requires Laws(c) && KeysFit(d) && Network(c, d, sent, arrivals) && k < |arrivals|
    ensures DeliveredAt(c, d, sent, size, arrivals, k) ==
            if arrivals[k].Copy? && Replay.AcceptedAt(size, Calls(arrivals), k)
            then Some(sent[arrivals[k].index].inner) else None
    ensures var before := Received(c, d, sent, size, arrivals[..k]);
            Received(c, d, sent, size, arrivals[..k + 1]) ==
            if arrivals[k].Copy? then Replay.Record(before, size, arrivals[k].index + 1) else before
  {
    hide Inspect, WireOf;
    assert arrivals[..k + 1][..k] == arrivals[..k];
    ReceivedIsRecordAll(c, d, sent, size, arrivals[..k]);
    assert Calls(arrivals)[..k] == Calls(arrivals[..k]);
    if arrivals[k].Copy? {
      CopyArrives(c, d, sent, arrivals[k].index, Received(c, d, sent, size, arrivals[..k]), size);
    }
  }

  /** Every datagram comes out byte-equal and at most once. */
  lemma DeliveredAtMostOnce(c: Primitives, d: Direction, sent: seq<Sent>, size: nat, arrivals: seq<Arrival>, j: nat, k: nat)
    requires Laws(c) && KeysFit(d) && Network(c, d, sent, arrivals)
    requires j < k < |arrivals| && arrivals[j].Copy? && arrivals[k] == arrivals[j]
    ensures DeliveredAt(c, d, sent, size, arrivals, j) in {None, Some(sent[arrivals[j].index].inner)}
    ensures DeliveredAt(c, d, sent, size, arrivals, j).Some? ==> DeliveredAt(c, d, sent, size, arrivals, k).None?
  {
    DeliveredExactly(c, d, sent, size, arrivals, j);
    DeliveredExactly(c, d, sent, size, arrivals, k);
    var calls := Calls(arrivals);
    assert calls[j] == calls[k];
    Replay.AcceptedExactlyWhen(size, calls, k);
  }

  /** The first copy of a datagram comes out exactly when its number is above every
      number accepted so far, or less than the window size below the highest. */
  lemma FirstCopyDelivered(c: Primitives, d: Direction, sent: seq<Sent>, size: nat, arrivals: seq<Arrival>, k: nat)
    requires Laws(c) && KeysFit(d) && Network(c, d, sent, arrivals)
    requires k < |arrivals| && arrivals[k].Copy?
    requires forall j :: 0 <= j < k ==> arrivals[j] != arrivals[k]
    ensures var num, last := arrivals[k].index + 1, Received(c, d, sent, size, arrivals[..k]).last;
            DeliveredAt(c, d, sent, size, arrivals, k).Some? <==> num > last || last - num < size
  {
    hide Inspect, WireOf, DeliveredAt, Received;
    var calls := Calls(arrivals);
    DeliveredExactly(c, d, sent, size, arrivals, k);
    ReceivedIsRecordAll(c, d, sent, size, arrivals[..k]);
    assert calls[..k] == Calls(arrivals[..k]);
    Replay.AcceptedExactlyWhen(size, calls, k);
    assert forall j :: 0 <= j < k ==> calls[j] != calls[k];
  }
}
