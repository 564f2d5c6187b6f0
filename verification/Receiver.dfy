/** The receive side as the code keeps it: 24-bit numbers, raw heap tuples,
    range lists.  Every method refines its counterpart in ReceiverSpec. */
module Receiving {
  import opened SeqNum
  import opened Types
  import opened WireFormat
  import opened Tags
  import opened Windows
  import opened Ordering
  import opened Splitting
  import opened ReceiverSpec
  import Congestion
  import Ranges

  // ---------- the ordering heap on wire numbers ----------

  datatype HeapEntry = HeapEntry(oi: int, sub: int, cnt: nat, isOrdered: bool, data: Bytes)

  /** Python's order of the tuples. */
  predicate TupleLess(a: HeapEntry, b: HeapEntry) {
    a.oi < b.oi || (a.oi == b.oi && (a.sub < b.sub || (a.sub == b.sub && a.cnt < b.cnt)))
  }

  function HeapPush(heap: seq<HeapEntry>, e: HeapEntry): seq<HeapEntry> {
    if heap == [] || TupleLess(e, heap[0]) then [e] + heap
    else [heap[0]] + HeapPush(heap[1..], e)
  }

  function WireEntry(e: Entry): HeapEntry {
    HeapEntry(Wire(e.h.oi), e.h.sub, e.cnt, e.h.isOrdered, e.h.data)
  }

  function WireHeap(heap: seq<Entry>): (w: seq<HeapEntry>)
    ensures |w| == |heap|
  {
    if heap == [] then [] else [WireEntry(heap[0])] + WireHeap(heap[1..])
  }

  /** Both indices lie between the same two wraps of the 24-bit counter. */
  predicate SameEpoch(a: int, b: int) {
    a / SEQ_MOD == b / SEQ_MOD
  }

  lemma EpochOrder(a: int, b: int)
    requires SameEpoch(a, b)
    ensures Wire(a) < Wire(b) <==> a < b
    ensures Wire(a) == Wire(b) <==> a == b
  {
  }

  /** Within one epoch the raw comparison of the code is the unbounded one. */
  lemma {:induction false} PushOnWire(heap: seq<Entry>, e: Entry)
    requires forall x <- heap :: SameEpoch(x.h.oi, e.h.oi)
    ensures WireHeap(Push(heap, e)) == HeapPush(WireHeap(heap), WireEntry(e))
  {
    if heap != [] {
      assert heap[0] in heap && forall x <- heap[1..] :: x in heap;
      EpochOrder(e.h.oi, heap[0].h.oi);
      EpochOrder(heap[0].h.oi, e.h.oi);
      if !EntryLess(e, heap[0]) {
        PushOnWire(heap[1..], e);
        assert Push(heap, e)[1..] == Push(heap[1..], e);
      } else {
        assert Push(heap, e)[1..] == heap;
      }
    }
  }

  lemma EpochNext(a: int, b: int)
    requires !SameEpoch(a, b) && a < b < a + SEQ_MOD
    ensures Wire(b) < Wire(a)
  {
    assert b / SEQ_MOD == a / SEQ_MOD + 1;
  }

  /** The raw comparison orders two entries as their indices are ordered if and
      only if no wrap lies between them. */
  lemma {:induction false} PushExactly(a: Entry, b: Entry)
    requires a.h.oi < b.h.oi < a.h.oi + SEQ_MOD
    ensures HeapPush(WireHeap([a]), WireEntry(b)) == WireHeap(Push([a], b)) <==> SameEpoch(a.h.oi, b.h.oi)
    ensures HeapPush(WireHeap([b]), WireEntry(a)) == WireHeap(Push([b], a)) <==> SameEpoch(a.h.oi, b.h.oi)
  {
    WirePair(a, b);
    WirePair(b, a);
    if SameEpoch(a.h.oi, b.h.oi) {
      EpochOrder(a.h.oi, b.h.oi);
    } else {
      EpochNext(a.h.oi, b.h.oi);
    }
  }

  lemma WirePair(a: Entry, b: Entry)
    ensures Push([a], b) == (if EntryLess(b, a) then [b, a] else [a, b])
    ensures WireHeap([a]) == [WireEntry(a)] && WireHeap([a, b]) == [WireEntry(a), WireEntry(b)]
    ensures HeapPush([WireEntry(a)], WireEntry(b))
            == if TupleLess(WireEntry(b), WireEntry(a)) then [WireEntry(b), WireEntry(a)] else [WireEntry(a), WireEntry(b)]
  {
    assert [a][1..] == [] && [a, b][1..] == [b] && [b][1..] == [] && [WireEntry(a)][1..] == [];
  }

  /** One channel as the code keeps it, and what it has delivered. */
  datatype WireChannel = WireChannel(expected: int, highest: int, heap: seq<HeapEntry>, out: seq<Bytes>)

  function WirePop(c: WireChannel): WireChannel
    requires c.heap != []
  {
    var top := c.heap[0];
    if top.isOrdered then WireChannel(Wire(c.expected + 1), -1, c.heap[1..], c.out + [top.data])
    else WireChannel(c.expected, top.sub, c.heap[1..], c.out + [top.data])
  }

  /** `_flush_ordering_heap`, whatever the heap holds. */
  function WireFlush(c: WireChannel): WireChannel
    decreases |c.heap|
  {
    if c.heap != [] && c.heap[0].oi == c.expected then WireFlush(WirePop(c)) else c
  }

  /** What the code does with a message of 24-bit index oi, whatever was buffered. */
  function WireAccept(c: WireChannel, oi: int, sub: int, isOrdered: bool, data: Bytes, cnt: nat): WireChannel {
    if oi == c.expected then
      if isOrdered then WireFlush(WireChannel(Wire(c.expected + 1), -1, c.heap, c.out + [data]))
      else if c.highest == -1 || SeqGreaterThan(Wire(sub), Wire(c.highest)) then c.(highest := sub, out := c.out + [data])
      else c
    else if SeqGreaterThan(oi, c.expected) && |c.heap| < MAX_ORDERING_HEAP_SIZE then
      c.(heap := HeapPush(c.heap, HeapEntry(oi, sub, cnt, isOrdered, data)))
    else c
  }

  function Payloads(out: seq<Handed>): (r: seq<Bytes>)
    ensures |r| == |out| && forall i :: 0 <= i < |out| ==> r[i] == out[i].data
  {
    seq(|out|, i requires 0 <= i < |out| => out[i].data)
  }

  function OnWire(c: Channel): WireChannel {
    WireChannel(Wire(c.expected), c.highest, WireHeap(c.heap), Payloads(c.out))
  }

  lemma PayloadsSnoc(out: seq<Handed>, h: Handed)
    ensures Payloads(out + [h]) == Payloads(out) + [h.data]
  {
  }

  lemma PopOnWire(c: Channel)
    requires c.heap != []
    ensures WirePop(OnWire(c)) == OnWire(FlushOne(c))
  {
    PayloadsSnoc(c.out, c.heap[0].h);
    WireNext(c.expected);
  }

  lemma {:induction false} FlushOnWire(c: Channel)
    requires Due(c, 0) && NearHeap(c)
    ensures WireFlush(OnWire(c)) == OnWire(Flush(c))
    decreases |c.heap|
  {
    DueOnWire(c);
    if HeadDue(c) {
      FlushOneKeeps(c, 0);
      NearTail(c);
      PopOnWire(c);
      FlushOnWire(FlushOne(c));
    }
  }

  /** While no wrap lies among the buffered indices, and all are less than half
      the circle ahead, the code's channel is the unbounded one. */
  lemma AcceptOnWire(c: Channel, h: Handed, cnt: nat)
    requires ChannelOk(c) && Admits(c, h)
    ensures WireAccept(OnWire(c), Wire(h.oi), h.sub, h.isOrdered, h.data, cnt) == OnWire(Accept(c, h, cnt))
  {
    if h.oi == c.expected {
      PayloadsSnoc(c.out, h);
      if h.isOrdered {
        TakenOnWire(c, h);
      }
    } else {
      WireFar(h.oi, c.expected);
      if h.oi > c.expected {
        PushOnWire(c.heap, Entry(h, cnt));
      }
    }
  }

  lemma WireFar(a: int, b: int)
    requires a != b && -HALF_SEQ <= a - b < HALF_SEQ
    ensures Wire(a) != Wire(b) && (SeqGreaterThan(Wire(a), Wire(b)) <==> a > b)
  {
    WireInjective(a, b);
    AheadOfWire(a, b);
  }

  lemma TakenOnWire(c: Channel, h: Handed)
    requires ChannelOk(c) && WellKeyed(h) && h.oi == c.expected && h.isOrdered
    ensures WireFlush(WireChannel(Wire(Wire(c.expected) + 1), -1, WireHeap(c.heap), Payloads(c.out) + [h.data]))
            == OnWire(Flush(Channel(c.expected + 1, -1, c.heap, c.out + [h])))
  {
    var next := Channel(c.expected + 1, -1, c.heap, c.out + [h]);
    DeliverKeeps(c, h, 0, next);
    WireNext(c.expected);
    PayloadsSnoc(c.out, h);
    FlushOnWire(next);
  }

  /** Across the wrap it is not: with 2^24 - 2 awaited and 2^24 - 1 and 2^24
      buffered, the code delivers one message where three are due, and stops
      with the entry of index 0 on top of the one it waits for. */
  lemma {:induction false} WrapStalls(a: Handed, b: Handed, d: Handed)
    requires a.isOrdered && b.isOrdered && d.isOrdered
    requires d.oi == SEQ_MOD - 2 && a.oi == SEQ_MOD - 1 && b.oi == SEQ_MOD
    ensures var c := Channel(SEQ_MOD - 2, -1, [], []);
      Accept(Accept(Accept(c, a, 1), b, 2), d, 3).out == [d, a, b]
    ensures var w := WireChannel(SEQ_MOD - 2, -1, [], []);
      var w1 := WireAccept(w, SEQ_MOD - 1, a.sub, true, a.data, 1);
      var w2 := WireAccept(w1, 0, b.sub, true, b.data, 2);
      var w3 := WireAccept(w2, SEQ_MOD - 2, d.sub, true, d.data, 3);
      w3.out == [d.data] && w3.expected == SEQ_MOD - 1 && w3.heap == [WireEntry(Entry(b, 2)), WireEntry(Entry(a, 1))]
  {
    WrapDelivers(a, b, d);
    var x, y := WireEntry(Entry(a, 1)), WireEntry(Entry(b, 2));
    assert Wire(SEQ_MOD - 1) == SEQ_MOD - 1 && Wire(SEQ_MOD) == 0 && Wire(SEQ_MOD - 2) == SEQ_MOD - 2;
    assert HeapPush([], x) == [x] && HeapPush([x], y) == [y, x];
    var w2 := WireChannel(SEQ_MOD - 2, -1, [y, x], []);
    assert Ahead(SEQ_MOD - 1, SEQ_MOD - 2) == 1;
    assert Ahead(0, SEQ_MOD - 2) == 2;
    assert [] + [d.data] == [d.data];
    assert WireFlush(WireChannel(SEQ_MOD - 1, -1, [y, x], [d.data])) == WireChannel(SEQ_MOD - 1, -1, [y, x], [d.data]);
  }

  lemma WrapDelivers(a: Handed, b: Handed, d: Handed)
    requires a.isOrdered && b.isOrdered && d.isOrdered
    requires d.oi == SEQ_MOD - 2 && a.oi == SEQ_MOD - 1 && b.oi == SEQ_MOD
    ensures Accept(Accept(Accept(Channel(SEQ_MOD - 2, -1, [], []), a, 1), b, 2), d, 3).out == [d, a, b]
  {
    var x, y := Entry(a, 1), Entry(b, 2);
    PushTwo(x, y);
    var c := Channel(SEQ_MOD - 1, -1, [x, y], [d]);
    assert [] + [d] == [d];
    var c1 := FlushOne(c);
    assert c1.heap == [y] && c1.out == [d, a] && Flush(c) == Flush(c1);
    var c2 := FlushOne(c1);
    assert |c2.heap| == 0 && c2.out == [d, a, b] && Flush(c1) == Flush(c2) && Flush(c2) == c2;
  }

  // ---------- the stall at the wrap, in general ----------

  datatype Item = Item(oi: int, sub: int, isOrdered: bool, data: Bytes)

  function WireAcceptAll(c: WireChannel, items: seq<Item>, cnt: nat): WireChannel
    decreases |items|
  {
    if items == [] then c
    else
      var it := items[0];
      WireAcceptAll(WireAccept(c, it.oi, it.sub, it.isOrdered, it.data, cnt + 1), items[1..], cnt + 1)
  }

  /** As the heap keeps its entries: the top is no greater than any other. */
  ghost predicate RawSorted(heap: seq<HeapEntry>) {
    forall i, j :: 0 <= i < j < |heap| ==> !TupleLess(heap[j], heap[i])
  }

  lemma {:induction false} HeapPushKeeps(heap: seq<HeapEntry>, e: HeapEntry)
    ensures HeapPush(heap, e) != [] && (heap != [] ==> HeapPush(heap, e)[0].oi <= heap[0].oi)
    ensures forall x :: x in HeapPush(heap, e) <==> x in heap || x == e
  {
    if heap != [] && !TupleLess(e, heap[0]) {
      HeapPushKeeps(heap[1..], e);
      assert heap == [heap[0]] + heap[1..];
    }
  }

  lemma {:induction false} HeapPushSorts(heap: seq<HeapEntry>, e: HeapEntry)
    requires RawSorted(heap)
    ensures RawSorted(HeapPush(heap, e))
  {
    if heap != [] && !TupleLess(e, heap[0]) {
      HeapPushSorts(heap[1..], e);
      HeapPushKeeps(heap[1..], e);
      var after := HeapPush(heap[1..], e);
      forall j | 0 <= j < |after|
        ensures !TupleLess(after[j], heap[0])
      {
        assert after[j] in after;
        if after[j] != e {
          var k :| 0 <= k < |heap[1..]| && heap[1..][k] == after[j];
          assert heap[k + 1] == after[j];
        }
      }
    }
  }

  lemma {:induction false} WireFlushSorted(c: WireChannel)
    requires RawSorted(c.heap)
    ensures RawSorted(WireFlush(c).heap)
    decreases |c.heap|
  {
    if c.heap != [] && c.heap[0].oi == c.expected {
      WireFlushSorted(WirePop(c));
    }
  }

  /** Whatever arrives, the heap stays in raw order. */
  lemma WireAcceptSorted(c: WireChannel, it: Item, cnt: nat)
    requires RawSorted(c.heap)
    ensures RawSorted(WireAccept(c, it.oi, it.sub, it.isOrdered, it.data, cnt).heap)
  {
    WireFlushSorted(WireChannel(Wire(c.expected + 1), -1, c.heap, c.out + [it.data]));
    HeapPushSorts(c.heap, HeapEntry(it.oi, it.sub, cnt, it.isOrdered, it.data));
  }

  /** The top of the heap is below the awaited index, which has not passed high. */
  predicate Stuck(c: WireChannel, low: int, high: int) {
    c.heap != [] && c.heap[0].oi <= low < c.expected <= high < SEQ_MOD
  }

  lemma StuckStep(c: WireChannel, it: Item, cnt: nat, low: int, high: int)
    requires Stuck(c, low, high) && !(it.isOrdered && it.oi == high) && low >= 0
    ensures var c' := WireAccept(c, it.oi, it.sub, it.isOrdered, it.data, cnt);
      Stuck(c', low, high) && forall e <- c.heap :: e in c'.heap
  {
    HeapPushKeeps(c.heap, HeapEntry(it.oi, it.sub, cnt, it.isOrdered, it.data));
    if it.oi == c.expected && it.isOrdered {
      assert Wire(c.expected + 1) == c.expected + 1;
    }
  }

  lemma {:induction false} StuckForever(c: WireChannel, items: seq<Item>, cnt: nat, low: int, high: int)
    requires Stuck(c, low, high) && low >= 0
    requires forall i :: 0 <= i < |items| ==> !(items[i].isOrdered && items[i].oi == high)
    ensures var c' := WireAcceptAll(c, items, cnt);
      Stuck(c', low, high) && forall e <- c.heap :: e in c'.heap
    decreases |items|
  {
    if items != [] {
      StuckStep(c, items[0], cnt + 1, low, high);
      var it := items[0];
      StuckForever(WireAccept(c, it.oi, it.sub, it.isOrdered, it.data, cnt + 1), items[1..], cnt + 1, low, high);
    }
  }

  /** Two buffered messages on either side of a wrap: the later one lies on top. */
  lemma StraddleSticks(c: WireChannel, expected: int, a: int, b: int, i: nat)
    requires RawSorted(c.heap) && c.expected == Wire(expected) && i < |c.heap| && c.heap[i].oi == Wire(b)
    requires expected <= a < b < expected + HALF_SEQ && !SameEpoch(a, b)
    ensures Stuck(c, Wire(b), Wire(a))
  {
    EpochNext(a, b);
    assert SameEpoch(expected, a);
    EpochNext(expected, b);
    if expected < a {
      EpochOrder(expected, a);
    }
  }

  /** For every pair of buffered indices a < b with a wrap between them, the
      channel stops for good: whatever arrives, short of another ordered message
      of index a, nothing buffered ever leaves the heap, and the awaited index
      never passes a. */
  lemma StallsForGood(c: WireChannel, expected: int, a: int, b: int, i: nat, items: seq<Item>, cnt: nat)
    requires RawSorted(c.heap) && c.expected == Wire(expected) && i < |c.heap| && c.heap[i].oi == Wire(b)
    requires expected <= a < b < expected + HALF_SEQ && !SameEpoch(a, b)
    requires forall k :: 0 <= k < |items| ==> !(items[k].isOrdered && items[k].oi == Wire(a))
    ensures var c' := WireAcceptAll(c, items, cnt);
      Wire(b) < c'.expected <= Wire(a) && forall e <- c.heap :: e in c'.heap
  {
    StraddleSticks(c, expected, a, b, i);
    StuckForever(c, items, cnt, Wire(b), Wire(a));
  }

  // ---------- what a frame may look like ----------

  /** Buffered indices are ahead of the expected one by less than half the
      circle and share one epoch. */
  ghost predicate NearHeap(c: Channel) {
    (forall e <- c.heap :: e.h.oi < c.expected + HALF_SEQ)
    && (forall x, y :: x in c.heap && y in c.heap ==> SameEpoch(x.h.oi, y.h.oi))
  }

  /** The hypotheses on a message reaching a channel: a key of its own among the
      buffered ones, within half the circle, and no wrap among buffered indices. */
  ghost predicate Admits(c: Channel, h: Handed) {
    Ordering.Fits(c, h) && -HALF_SEQ <= h.oi - c.expected < HALF_SEQ
    && (h.oi > c.expected ==> forall e <- c.heap :: SameEpoch(e.h.oi, h.oi))
  }

  ghost predicate ChannelOk(c: Channel) {
    ChannelInv(c, 0) && NearHeap(c)
  }

  lemma {:induction false} FlushNear(c: Channel)
    requires NearHeap(c)
    ensures NearHeap(Flush(c))
    decreases |c.heap|
  {
    if HeadDue(c) {
      assert forall e <- c.heap[1..] :: e in c.heap;
      FlushNear(FlushOne(c));
    }
  }

  lemma AcceptOk(c: Channel, h: Handed, cnt: nat)
    requires ChannelOk(c) && Admits(c, h)
    ensures ChannelOk(Accept(c, h, cnt))
  {
    AcceptKeeps(c, h, cnt, 0);
    if h.oi == c.expected && h.isOrdered {
      FlushNear(Channel(c.expected + 1, -1, c.heap, c.out + [h]));
    } else if h.oi > c.expected {
      PushElements(c.heap, Entry(h, cnt));
    }
  }

  predicate Complete(r: Receiver, t: TFrame, now: real, timeout: real, victim: int) {
    t.f.splitCount > 0 ==> Reassemble(r.trackers, FragmentOf(t.f), now, timeout, victim).1.Some?
  }

  /** If the frame completes an ordered or sequenced message, its channel admits it. */
  ghost predicate RouteOk(r: Receiver, t: TFrame, now: real, timeout: real, victim: int)
    requires Shaped(r) && ChannelFits(t)
  {
    t.f.reliability.IsOrdered() && VictimOk(r.trackers, FragmentOf(t.f), now, timeout, victim)
    && Complete(r, t, now, timeout, victim) ==>
      Admits(r.chans[t.f.orderingChannel], Deliverable(t, t.f.data))
  }

  /** The reliable number is within half the circle of the window. */
  predicate NumberOk(r: Receiver, t: TFrame) {
    t.f.reliability.IsReliable() ==> -HALF_SEQ <= t.f.reliableNumber - r.seen.base < HALF_SEQ
  }

  /** What the wire must satisfy for frame t to mean what its unbounded reading says. */
  ghost predicate FrameOk(r: Receiver, t: TFrame, now: real, timeout: real) {
    Shaped(r) && ChannelFits(t) && NumberOk(r, t)
    && (Filtered(r, t).1 ==> forall v :: RouteOk(r, t, now, timeout, v))
  }

  /** Whatever is evicted on the way, every frame of the datagram is fit to be read. */
  ghost predicate FramesOk(r: Receiver, ts: seq<TFrame>, now: real, timeout: real)
    decreases |ts|
  {
    ts == []
    || (FrameOk(r, ts[0], now, timeout)
        && forall v :: VictimOk(r.trackers, FragmentOf(ts[0].f), now, timeout, v)
             ==> FramesOk(HandleFrame(r, ts[0], now, timeout, v), ts[1..], now, timeout))
  }

  /** The receiver that reads the frames of datagram n, when it reads them. */
  function Noted(r: Receiver, n: int): Receiver {
    match Congestion.Got(r.expected, n)
    case (_, None) => r
    case (e, Some(skipped)) =>
      r.(expected := e, acks := r.acks + {n}, naks := r.naks + Missing(r.recent, n, skipped))
  }

  function Remembering(r: Receiver, n: int): Receiver {
    r.(recent := Record(r.recent, RECEIVED_WINDOW_SIZE, n))
  }

  /** The state in which the frames of datagram n are read. */
  function Opening(r: Receiver, n: int): Receiver {
    Remembering(Noted(r, n), n)
  }

  ghost predicate DataVictimsOk(r: Receiver, n: int, ts: seq<TFrame>, now: real, timeout: real, victims: seq<int>)
    requires Shaped(r) && |victims| == |ts| && forall t <- ts :: ChannelFits(t)
  {
    Congestion.Got(r.expected, n).1.Some? && !r.recent.Has(n) ==> VictimsOk(Opening(r, n), ts, now, timeout, victims)
  }

  ghost predicate DataOk(r: Receiver, n: int, ts: seq<TFrame>, now: real, timeout: real) {
    -HALF_SEQ <= n - r.expected < HALF_SEQ && -HALF_SEQ <= n - r.recent.base < HALF_SEQ
    && (forall t <- ts :: ChannelFits(t))
    && (Congestion.Got(r.expected, n).1.Some? && !r.recent.Has(n) ==>
          FramesOk(Opening(r, n), ts, now, timeout))
  }

  // ---------- concrete against abstract ----------

  ghost predicate ChannelRep(heap: seq<HeapEntry>, expected: int, highest: int, c: Channel) {
    heap == WireHeap(c.heap) && expected == Wire(c.expected) && highest == c.highest
  }

  /** A list of wire ranges stands for a set of unbounded numbers. */
  ghost predicate RangesRep(rs: seq<Range>, nums: set<int>) {
    Ranges.Separated(rs)
    && (forall n <- nums :: Ranges.Covers(rs, Wire(n)))
    && (forall w :: Ranges.Covers(rs, w) ==> exists n <- nums :: Wire(n) == w)
  }

  lemma EnqueueStep(queue: seq<(Bytes, int)>, items: seq<Handed>, h: Handed, ch: int)
    ensures Enqueue(queue, items + [h], ch) == Enqueue(Enqueue(queue, items, ch), [h], ch)
    decreases |items|
  {
    if items == [] {
      assert items + [h] == [h];
    } else {
      var q := if |queue| < MAX_RECEIVE_QUEUE_SIZE then queue + [(items[0].data, ch)] else queue;
      assert (items + [h])[1..] == items[1..] + [h];
      EnqueueStep(q, items[1..], h, ch);
    }
  }

  lemma EnqueueOne(queue: seq<(Bytes, int)>, h: Handed, ch: int)
    ensures Enqueue(queue, [h], ch)
            == if |queue| < MAX_RECEIVE_QUEUE_SIZE then queue + [(h.data, ch)] else queue
  {
    assert [h][1..] == [];
  }

  class ReceiveSide {
    const cc: Congestion.CongestionController
    const receivedDatagrams: ReceivedWindow
    const reliableWindow: ReliableMessageWindow
    const timeout: real
    var ackRanges: seq<Range>
    var nakRanges: seq<Range>
    var orderingHeaps: seq<seq<HeapEntry>>
    var heapCounter: nat
    var expectedOrderingIndex: seq<int>
    var highestSequenced: seq<int>
    var splitTrackers: map<int, Tracker>
    var receiveQueue: seq<(Bytes, int)>
    ghost var abs: Receiver

    /** The fields of one channel stand for c. */
    ghost predicate Stands(ch: nat, c: Channel)
      reads this
    {
      ch < |orderingHeaps| && ch < |expectedOrderingIndex| && ch < |highestSequenced|
      && ChannelRep(orderingHeaps[ch], expectedOrderingIndex[ch], highestSequenced[ch], c)
    }

    ghost predicate ChannelsStand(chans: seq<Channel>)
      reads this
    {
      |orderingHeaps| == |expectedOrderingIndex| == |highestSequenced| == |chans|
      && forall ch: nat | ch < |chans| :: Stands(ch, chans[ch])
    }

    /** Everything but the three collaborators. */
    ghost predicate Own(r: Receiver)
      reads this
    {
      Shaped(r) && ChannelsStand(r.chans) && (forall c <- r.chans :: ChannelOk(c))
      && heapCounter == r.heapCounter && splitTrackers == r.trackers && receiveQueue == r.queue
    }

    ghost predicate Valid()
      reads this, cc, receivedDatagrams, reliableWindow
    {
      cc.Valid() && cc.expected == abs.expected && Inside()
    }

    /** Everything but the controller. */
    ghost predicate Inside()
      reads this, receivedDatagrams, reliableWindow
    {
      receivedDatagrams.Valid() && reliableWindow.Valid() && receivedDatagrams.size == RECEIVED_WINDOW_SIZE
      && receivedDatagrams.recent == abs.recent && reliableWindow.seen == abs.seen
      && Own(abs) && RangesRep(ackRanges, abs.acks) && RangesRep(nakRanges, abs.naks)
      && abs.recent.base <= abs.expected
    }

    constructor (cc: Congestion.CongestionController, timeout: real)
      requires cc.Valid() && cc.expected == 0
      ensures Valid() && fresh(receivedDatagrams) && fresh(reliableWindow)
      ensures this.cc == cc && this.timeout == timeout && abs == NewReceiver()
    {
      this.cc := cc;
      this.timeout := timeout;
      receivedDatagrams := new ReceivedWindow(RECEIVED_WINDOW_SIZE);
      reliableWindow := new ReliableMessageWindow();
      ackRanges, nakRanges := [], [];
      orderingHeaps := seq(NUMBER_OF_ORDERED_STREAMS, _ => []);
      heapCounter := 0;
      expectedOrderingIndex := seq(NUMBER_OF_ORDERED_STREAMS, _ => 0);
      highestSequenced := seq(NUMBER_OF_ORDERED_STREAMS, _ => -1);
      splitTrackers := map[];
      receiveQueue := [];
      abs := NewReceiver();
      new;
      assert OrderedOf([]) == [];
    }

    method PollReceive() returns (m: Option<(Bytes, int)>)
      requires Valid()
      modifies this`receiveQueue, this`abs
      ensures Valid()
      ensures if old(abs.queue) == [] then m == None && abs == old(abs)
              else m == Some(old(abs.queue)[0])
                   && abs == old(abs).(queue := old(abs.queue)[1..], moments := old(abs.moments) + [Taken])
    {
      if receiveQueue == [] {
        return None;
      }
      m := Some(receiveQueue[0]);
      receiveQueue := receiveQueue[1..];
      abs := Poll(abs).0;
    }

    /** Pending ACKs leave when the controller says so. */
    method FlushAcks(mtu: int, now: real) returns (packets: seq<Bytes>, sent: bool)
      requires Valid()
      modifies this`ackRanges, this`abs, cc`oldestUnsentAck
      ensures Valid() && abs == if sent then old(abs).(acks := {}) else old(abs)
      ensures sent <==> old(ackRanges) != [] && old(Congestion.AckDue(cc.lastRtt, cc.oldestUnsentAck, now))
      ensures Ranges.PacketsOf(packets, if sent then old(ackRanges) else [], mtu, true)
      ensures cc.oldestUnsentAck == if sent then 0.0 else old(cc.oldestUnsentAck)
    {
      packets, sent := [], false;
      if ackRanges != [] {
        sent := cc.ShouldSendAcks(now);
      }
      if sent {
        packets := Ranges.BuildRangePackets(mtu, ackRanges, true);
        ackRanges := [];
        cc.OnSendAck();
        abs := abs.(acks := {});
      }
    }

    method FlushNaks(mtu: int) returns (packets: seq<Bytes>)
      requires Valid()
      modifies this`nakRanges, this`abs
      ensures Valid() && abs == old(abs).(naks := {})
      ensures Ranges.PacketsOf(packets, old(nakRanges), mtu, false)
    {
      packets := Ranges.BuildRangePackets(mtu, nakRanges, false);
      nakRanges := [];
      abs := abs.(naks := {});
    }

    method EvictStaleTrackers(now: real)
      requires Valid()
      modifies this`splitTrackers, this`abs
      ensures Valid() && abs == GivenUp(old(abs), now, timeout)
    {
      splitTrackers := Live(splitTrackers, now, timeout);
      abs := GivenUp(abs, now, timeout);
    }

    /** The receiver's share of `update`. */
    method Tick(mtu: int, now: real) returns (acks: seq<Bytes>, naks: seq<Bytes>, sent: bool)
      requires Valid()
      modifies this`ackRanges, this`nakRanges, this`splitTrackers, this`abs, cc`oldestUnsentAck
      ensures Valid() && abs == Ticked(old(abs), now, timeout, sent)
      ensures sent <==> old(ackRanges) != [] && old(Congestion.AckDue(cc.lastRtt, cc.oldestUnsentAck, now))
      ensures Ranges.PacketsOf(acks, if sent then old(ackRanges) else [], mtu, true)
      ensures Ranges.PacketsOf(naks, old(nakRanges), mtu, false)
      ensures cc.oldestUnsentAck == if sent then 0.0 else old(cc.oldestUnsentAck)
    {
      acks, sent := FlushAcks(mtu, now);
      naks := FlushNaks(mtu);
      EvictStaleTrackers(now);
    }

    method Deliver(data: Bytes, ch: int, ghost h: Handed)
      requires h.data == data
      modifies this`receiveQueue
      ensures receiveQueue == Enqueue(old(receiveQueue), [h], ch)
    {
      EnqueueOne(receiveQueue, h, ch);
      if |receiveQueue| < MAX_RECEIVE_QUEUE_SIZE {
        receiveQueue := receiveQueue + [(data, ch)];
      }
    }

    /** The other channels' fields are as before. */
    twostate predicate OthersKept(ch: nat)
      reads this
    {
      |orderingHeaps| == old(|orderingHeaps|) && |expectedOrderingIndex| == old(|expectedOrderingIndex|)
      && |highestSequenced| == old(|highestSequenced|)
      && (forall k: nat | k < |orderingHeaps| && k != ch :: orderingHeaps[k] == old(orderingHeaps[k]))
      && (forall k: nat | k < |expectedOrderingIndex| && k != ch :: expectedOrderingIndex[k] == old(expectedOrderingIndex[k]))
      && (forall k: nat | k < |highestSequenced| && k != ch :: highestSequenced[k] == old(highestSequenced[k]))
    }

    /** The fields of the channel stand for cur, and the loop condition says whether its head is due. */
    ghost predicate Turn(ch: nat, cur: Channel)
      reads this
    {
      Stands(ch, cur) && Due(cur, 0) && NearHeap(cur)
      && (HeadDue(cur) <==> orderingHeaps[ch] != [] && orderingHeaps[ch][0].oi == expectedOrderingIndex[ch])
    }

    /** One turn of the flushing loop. */
    method FlushTop(ch: nat, ghost cur: Channel, ghost queue: seq<(Bytes, int)>, ghost items: seq<Handed>)
      requires Turn(ch, cur) && HeadDue(cur) && receiveQueue == Enqueue(queue, items, ch)
      modifies this`orderingHeaps, this`expectedOrderingIndex, this`highestSequenced, this`receiveQueue
      ensures Turn(ch, FlushOne(cur)) && OthersKept(ch) && |orderingHeaps[ch]| < old(|orderingHeaps[ch]|)
      ensures receiveQueue == Enqueue(queue, items + [cur.heap[0].h], ch)
    {
      DueOnWire(cur);
      FlushOneKeeps(cur, 0);
      NearTail(cur);
      DueOnWire(FlushOne(cur));
      EnqueueStep(queue, items, cur.heap[0].h, ch);
      var top := orderingHeaps[ch][0];
      orderingHeaps := orderingHeaps[ch := orderingHeaps[ch][1..]];
      Deliver(top.data, ch, cur.heap[0].h);
      if top.isOrdered {
        WireNext(cur.expected);
        expectedOrderingIndex := expectedOrderingIndex[ch := Wire(expectedOrderingIndex[ch] + 1)];
        highestSequenced := highestSequenced[ch := -1];
      } else {
        highestSequenced := highestSequenced[ch := top.sub];
      }
    }

    method FlushOrderingHeap(ch: nat, ghost c: Channel)
      requires Stands(ch, c) && Due(c, 0) && NearHeap(c)
      modifies this`orderingHeaps, this`expectedOrderingIndex, this`highestSequenced, this`receiveQueue
      ensures Stands(ch, Flush(c)) && OthersKept(ch) && c.out <= Flush(c).out
      ensures receiveQueue == Enqueue(old(receiveQueue), Flush(c).out[|c.out|..], ch)
    {
      ghost var cur, items := c, [];
      DueOnWire(cur);
      while orderingHeaps[ch] != [] && orderingHeaps[ch][0].oi == expectedOrderingIndex[ch]
        invariant Turn(ch, cur) && OthersKept(ch) && Flushing(c, cur, items)
        invariant receiveQueue == Enqueue(old(receiveQueue), items, ch)
        decreases |orderingHeaps[ch]|
      {
        FlushTop(ch, cur, old(receiveQueue), items);
        FlushingNext(c, cur, items);
        items := items + [cur.heap[0].h];
        cur := FlushOne(cur);
      }
      FlushingDone(c, cur, items);
    }

    /** Sequenced and ordered messages at their channel. */
    method AcceptMessage(ch: nat, oi: int, sub: int, isOrdered: bool, data: Bytes, ghost c: Channel, ghost h: Handed)
      requires Stands(ch, c) && ChannelOk(c) && Admits(c, h)
      requires oi == Wire(h.oi) && sub == h.sub && isOrdered == h.isOrdered && data == h.data
      modifies this`orderingHeaps, this`expectedOrderingIndex, this`highestSequenced, this`receiveQueue, this`heapCounter
      ensures Stands(ch, Accept(c, h, old(heapCounter) + 1)) && OthersKept(ch)
      ensures heapCounter == if Bumps(c, h) then old(heapCounter) + 1 else old(heapCounter)
      ensures c.out <= Accept(c, h, old(heapCounter) + 1).out
      ensures receiveQueue == Enqueue(old(receiveQueue), Accept(c, h, old(heapCounter) + 1).out[|c.out|..], ch)
    {
      if h.oi != c.expected {
        WireFar(h.oi, c.expected);
      }
      if oi == expectedOrderingIndex[ch] {
        if isOrdered {
          TakeOrdered(ch, data, c, h);
        } else if highestSequenced[ch] == -1 || SeqGreaterThan(Wire(sub), Wire(highestSequenced[ch])) {
          highestSequenced := highestSequenced[ch := sub];
          Deliver(data, ch, h);
          assert (c.out + [h])[|c.out|..] == [h];
        } else {
          assert c.out[|c.out|..] == [];
        }
      } else {
        assert c.out[|c.out|..] == [];
        if SeqGreaterThan(oi, expectedOrderingIndex[ch]) {
          if |orderingHeaps[ch]| < MAX_ORDERING_HEAP_SIZE {
            heapCounter := heapCounter + 1;
            PushOnWire(c.heap, Entry(h, heapCounter));
            orderingHeaps := orderingHeaps[ch := HeapPush(orderingHeaps[ch], HeapEntry(oi, sub, heapCounter, isOrdered, data))];
          }
        }
      }
    }

    /** The ordered message everything was waiting for. */
    method TakeOrdered(ch: nat, data: Bytes, ghost c: Channel, ghost h: Handed)
      requires Stands(ch, c) && ChannelOk(c) && Admits(c, h) && h.oi == c.expected && h.isOrdered && data == h.data
      modifies this`orderingHeaps, this`expectedOrderingIndex, this`highestSequenced, this`receiveQueue
      ensures var c' := Flush(Channel(c.expected + 1, -1, c.heap, c.out + [h]));
        Stands(ch, c') && OthersKept(ch) && c.out <= c'.out
        && receiveQueue == Enqueue(old(receiveQueue), c'.out[|c.out|..], ch)
    {
      ghost var next := Channel(c.expected + 1, -1, c.heap, c.out + [h]);
      Deliver(data, ch, h);
      WireNext(c.expected);
      expectedOrderingIndex := expectedOrderingIndex[ch := Wire(expectedOrderingIndex[ch] + 1)];
      highestSequenced := highestSequenced[ch := -1];
      DeliverKeeps(c, h, 0, next);
      assert Due(next, 0);
      ghost var queued := receiveQueue;
      FlushOrderingHeap(ch, next);
      EnqueueSplit(old(receiveQueue), h, Flush(next).out[|next.out|..], ch);
      assert Flush(next).out[|c.out|..] == [h] + Flush(next).out[|next.out|..];
    }

    /** Ordering, sequencing or direct delivery (the end of `_handle_frame`). */
    method RouteFrame(frame: MessageFrame, data: Bytes, ghost r: Receiver, ghost t: TFrame)
      requires Own(r) && ChannelFits(t) && frame == WireFrame(t.f)
      requires t.f.reliability.IsOrdered() ==> Admits(r.chans[t.f.orderingChannel], Deliverable(t, data))
      modifies this`orderingHeaps, this`expectedOrderingIndex, this`highestSequenced, this`receiveQueue, this`heapCounter
      ensures Own(Route(r, t, data))
    {
      ghost var h := Deliverable(t, data);
      var ch := frame.orderingChannel;
      if frame.reliability.IsOrdered() {
        ghost var c := r.chans[ch];
        assert c in r.chans;
        AcceptOk(c, h, heapCounter + 1);
        if frame.reliability.IsSequenced() {
          AcceptMessage(ch, frame.orderingIndex, frame.sequencingIndex, false, data, c, h);
        } else {
          AcceptMessage(ch, frame.orderingIndex, ORDERED_SUBKEY, true, data, c, h);
        }
      } else {
        Deliver(data, ch, h);
      }
    }

    /** `_reassemble_split`. */
    method ReassembleSplit(frame: MessageFrame, now: real) returns (out: Option<Bytes>, ghost victim: int)
      modifies this`splitTrackers
      ensures VictimOk(old(splitTrackers), FragmentOf(frame), now, timeout, victim)
      ensures (splitTrackers, out) == Reassemble(old(splitTrackers), FragmentOf(frame), now, timeout, victim)
    {
      victim := 0;
      var sid := frame.splitId;
      if frame.splitCount > MAX_SPLIT_PACKET_COUNT {
        return None, victim;
      }
      if sid !in splitTrackers {
        splitTrackers := Live(splitTrackers, now, timeout);
        if |splitTrackers| >= MAX_SPLIT_TRACKERS {
          var oldest := OldestOf(splitTrackers);
          victim := oldest;
          splitTrackers := splitTrackers - {oldest};
        }
        splitTrackers := splitTrackers[sid := Tracker(frame.splitCount, map[], now)];
      }
      out := AddFragment(frame, now);
    }

    method AddFragment(frame: MessageFrame, now: real) returns (out: Option<Bytes>)
      requires frame.splitId in splitTrackers
      modifies this`splitTrackers
      ensures (splitTrackers, out) == Extend(old(splitTrackers), FragmentOf(frame), now)
    {
      var tracker := splitTrackers[frame.splitId];
      if frame.splitIndex >= tracker.total {
        return None;
      }
      var extended := Tracker(tracker.total, tracker.received[frame.splitIndex := frame.data], now);
      splitTrackers := splitTrackers[frame.splitId := extended];
      if |extended.received| < extended.total || extended.total < 0 {
        return None;
      }
      for i := 0 to extended.total
        invariant forall k | 0 <= k < i :: k in extended.received
      {
        if i !in extended.received {
          return None;
        }
      }
      splitTrackers := splitTrackers - {frame.splitId};
      ExtendDone(old(splitTrackers), FragmentOf(frame), now, splitTrackers);
      out := Some(Join(Parts(extended.received, extended.total)));
    }

    /** A fragment that passed the duplicate filters. */
    method DispatchFragment(frame: MessageFrame, now: real, ghost t: TFrame) returns (ghost victim: int)
      requires Own(abs) && frame == WireFrame(t.f) && ChannelFits(t) && frame.splitCount > 0
      requires forall v :: RouteOk(abs, t, now, timeout, v)
      modifies this`orderingHeaps, this`expectedOrderingIndex, this`highestSequenced, this`receiveQueue, this`heapCounter,
               this`splitTrackers, this`abs
      ensures Own(abs) && VictimOk(old(abs.trackers), FragmentOf(t.f), now, timeout, victim)
      ensures abs == Dispatch(old(abs), t, now, timeout, victim)
    {
      ghost var r0 := abs;
      var data;
      data, victim := ReassembleSplit(frame, now);
      ghost var r1 := Reassembled(r0, t, now, timeout, victim).0;
      abs := r1;
      assert RouteOk(r0, t, now, timeout, victim);
      if data.Some? {
        RouteFrame(frame, data.value, r1, t);
        abs := Route(r1, t, data.value);
      }
    }

    method DispatchWhole(frame: MessageFrame, now: real, ghost t: TFrame, ghost victim: int)
      requires Own(abs) && frame == WireFrame(t.f) && ChannelFits(t) && frame.splitCount <= 0
      requires t.f.reliability.IsOrdered() ==> Admits(abs.chans[t.f.orderingChannel], Deliverable(t, t.f.data))
      modifies this`orderingHeaps, this`expectedOrderingIndex, this`highestSequenced, this`receiveQueue, this`heapCounter,
               this`splitTrackers, this`abs
      ensures Own(abs) && abs == Dispatch(old(abs), t, now, timeout, victim)
    {
      RouteFrame(frame, frame.data, abs, t);
      abs := Route(abs, t, frame.data);
    }

    /** The reliable-number filter. */
    method Filter(frame: MessageFrame, ghost t: TFrame) returns (passed: bool)
      requires Valid() && frame == WireFrame(t.f) && NumberOk(abs, t)
      modifies this`abs, reliableWindow
      ensures Valid() && (abs, passed) == Filtered(old(abs), t)
    {
      passed := true;
      if frame.reliability.IsReliable() {
        passed := reliableWindow.CheckAndMark(frame.reliableNumber, t.f.reliableNumber);
      }
      abs := Filtered(abs, t).0;
    }

    method HandleFrame(frame: MessageFrame, now: real, ghost t: TFrame) returns (ghost victim: int)
      requires Valid() && frame == WireFrame(t.f) && FrameOk(abs, t, now, timeout)
      modifies this, reliableWindow
      ensures Valid() && VictimOk(old(abs.trackers), FragmentOf(t.f), now, timeout, victim)
      ensures abs == ReceiverSpec.HandleFrame(old(abs), t, now, timeout, victim)
    {
      victim := AnyVictim(abs.trackers, FragmentOf(t.f), now, timeout);
      ghost var r0 := abs;
      var passed := Filter(frame, t);
      if !passed {
        return;
      }
      assert forall v :: RouteOk(r0, t, now, timeout, v) ==> RouteOk(abs, t, now, timeout, v);
      victim := DispatchFrame(frame, now, t);
    }

    /** A frame that passed the duplicate filters. */
    method DispatchFrame(frame: MessageFrame, now: real, ghost t: TFrame) returns (ghost victim: int)
      requires Valid() && frame == WireFrame(t.f) && ChannelFits(t) && forall v :: RouteOk(abs, t, now, timeout, v)
      modifies this
      ensures Valid() && VictimOk(old(abs.trackers), FragmentOf(t.f), now, timeout, victim)
      ensures abs == Dispatch(old(abs), t, now, timeout, victim)
    {
      victim := AnyVictim(abs.trackers, FragmentOf(t.f), now, timeout);
      ghost var r1 := abs;
      if frame.splitCount > 0 {
        victim := DispatchFragment(frame, now, t);
      } else {
        assert RouteOk(abs, t, now, timeout, victim);
        DispatchWhole(frame, now, t, victim);
      }
      DispatchSameFilter(r1, t, now, timeout, victim);
    }

    /** Adding a number to a pending range list. */
    method NoteAck(sq: int, ghost n: int)
      requires RangesRep(ackRanges, abs.acks) && sq == Wire(n)
      modifies this`ackRanges
      ensures RangesRep(ackRanges, abs.acks + {n})
    {
      ghost var before := ackRanges;
      ackRanges := Ranges.AddToRanges(ackRanges, sq);
      RangesAdd(before, ackRanges, abs.acks, n);
    }

    /** The NAK loop: the skipped numbers that have not been received. */
    method NoteGap(sq: int, skipped: nat, ghost n: int)
      requires receivedDatagrams.Valid() && receivedDatagrams.recent == abs.recent && RangesRep(nakRanges, abs.naks)
      requires sq == Wire(n) && skipped < HALF_SEQ
      requires skipped > 0 ==> -HALF_SEQ <= n - skipped - abs.recent.base && n - abs.recent.base < HALF_SEQ
      modifies this`nakRanges
      ensures RangesRep(nakRanges, abs.naks + Missing(abs.recent, n, skipped))
    {
      var expected := Wire(sq - skipped);
      ghost var start := n - skipped;
      SkippedWire(n, skipped);
      NoneMissing(abs.naks, abs.recent, start);
      for i := 0 to skipped
        invariant RangesRep(nakRanges, MissingUpto(abs.naks, abs.recent, start, i))
      {
        NoteSkipped(expected, i, start);
      }
      MissingAll(abs.naks, abs.recent, n, skipped);
    }

    method NoteSkipped(expected: int, i: nat, ghost start: int)
      requires receivedDatagrams.Valid() && receivedDatagrams.recent == abs.recent
      requires RangesRep(nakRanges, MissingUpto(abs.naks, abs.recent, start, i))
      requires expected == Wire(start) && -HALF_SEQ <= start + i - abs.recent.base < HALF_SEQ
      modifies this`nakRanges
      ensures RangesRep(nakRanges, MissingUpto(abs.naks, abs.recent, start, i + 1))
    {
      var missed := Wire(expected + i);
      ghost var m, nums := start + i, MissingUpto(abs.naks, abs.recent, start, i);
      WirePlus(start, i);
      MissingNext(abs.naks, abs.recent, start, i);
      assert nums + {} == nums;
      var known := receivedDatagrams.Contains(missed, m);
      ghost var before := nakRanges;
      if !known {
        nakRanges := Ranges.AddToRanges(nakRanges, missed);
        RangesAdd(before, nakRanges, nums, m);
      }
    }

    /** The frames read so far have been handled, and the rest is fit to be read. */
    ghost predicate Reading(start: Receiver, now: real, ts: seq<TFrame>, i: nat, victims: seq<int>)
      requires Shaped(start) && (forall t <- ts :: ChannelFits(t)) && i == |victims| <= |ts|
      reads this
    {
      abs == ReceiverSpec.HandleFrames(start, ts[..i], now, timeout, victims)
      && VictimsOk(start, ts[..i], now, timeout, victims) && FramesOk(abs, ts[i..], now, timeout)
    }

    method ReadFrame(frame: MessageFrame, now: real, ghost start: Receiver, ghost ts: seq<TFrame>, ghost i: nat,
                     ghost victims: seq<int>)
      returns (ghost v: int)
      requires Shaped(start) && (forall t <- ts :: ChannelFits(t)) && i == |victims| < |ts|
      requires Valid() && frame == WireFrame(ts[i].f) && Reading(start, now, ts, i, victims)
      modifies this, reliableWindow
      ensures Valid() && Reading(start, now, ts, i + 1, victims + [v])
    {
      assert ts[i..][0] == ts[i] && ts[i..][1..] == ts[i + 1..] && ts[..i + 1] == ts[..i] + [ts[i]];
      v := HandleFrame(frame, now, ts[i]);
      HandleFramesSnoc(start, ts[..i], ts[i], now, timeout, victims, v);
      VictimsSnoc(start, ts[..i], ts[i], now, timeout, victims, v);
    }

    method ReadFrames(frames: seq<MessageFrame>, now: real, ghost ts: seq<TFrame>) returns (ghost victims: seq<int>)
      requires Valid() && frames == WireFrames(ts) && FramesOk(abs, ts, now, timeout)
      requires forall t <- ts :: ChannelFits(t)
      modifies this, reliableWindow
      ensures Valid() && |victims| == |ts|
      ensures abs == ReceiverSpec.HandleFrames(old(abs), ts, now, timeout, victims)
      ensures VictimsOk(old(abs), ts, now, timeout, victims)
    {
      victims := [];
      ghost var start := abs;
      assert ts[..0] == [] && ts[0..] == ts && ts[..|ts|] == ts;
      for i := 0 to |frames|
        invariant Valid() && |victims| == i && Reading(start, now, ts, i, victims)
      {
        WireFramesAt(ts, i);
        ghost var v := ReadFrame(frames[i], now, start, ts, i, victims);
        victims := victims + [v];
      }
    }

    /** An incoming data datagram (`_handle_data`). */
    method HandleData(sq: int, frames: seq<MessageFrame>, now: real, ghost n: int, ghost ts: seq<TFrame>)
      returns (ghost victims: seq<int>)
      requires Valid() && sq == Wire(n) && frames == WireFrames(ts) && DataOk(abs, n, ts, now, timeout)
      modifies this, reliableWindow, receivedDatagrams, cc`oldestUnsentAck, cc`expectedNextSeq, cc`expected
      ensures Valid() && |victims| == |ts|
      ensures abs == ReceiverSpec.HandleData(old(abs), n, ts, now, timeout, victims)
      ensures DataVictimsOk(old(abs), n, ts, now, timeout, victims)
      ensures cc.oldestUnsentAck == if old(cc.oldestUnsentAck) == 0.0 then now else old(cc.oldestUnsentAck)
    {
      victims := seq(|ts|, _ => 0);
      ghost var r0 := abs;
      var taken := NoteDatagram(sq, now, n);
      if !taken {
        return;
      }
      assert Inside();
      var known := receivedDatagrams.Contains(sq, n);
      if known {
        abs := abs.(refused := abs.refused + Unseen(abs.seen, ts));
        return;
      }
      victims := ReadNew(sq, frames, now, n, ts);
    }

    /** A datagram not seen before: its number is remembered and its frames are read. */
    method ReadNew(sq: int, frames: seq<MessageFrame>, now: real, ghost n: int, ghost ts: seq<TFrame>)
      returns (ghost victims: seq<int>)
      requires Valid() && sq == Wire(n) && frames == WireFrames(ts) && n < abs.expected
      requires -HALF_SEQ <= n - abs.recent.base < HALF_SEQ && forall t <- ts :: ChannelFits(t)
      requires FramesOk(Remembering(abs, n), ts, now, timeout)
      modifies this, reliableWindow, receivedDatagrams
      ensures Valid() && |victims| == |ts| && Shaped(Remembering(old(abs), n))
      ensures abs == ReceiverSpec.HandleFrames(Remembering(old(abs), n), ts, now, timeout, victims)
      ensures VictimsOk(Remembering(old(abs), n), ts, now, timeout, victims)
    {
      receivedDatagrams.Add(sq, n);
      abs := Remembering(abs, n);
      victims := ReadFrames(frames, now, ts);
    }

    /** The datagram's number is counted, acknowledged, and the gap before it reported. */
    method NoteDatagram(sq: int, now: real, ghost n: int) returns (taken: bool)
      requires Valid() && sq == Wire(n)
      requires -HALF_SEQ <= n - abs.expected < HALF_SEQ && -HALF_SEQ <= n - abs.recent.base < HALF_SEQ
      modifies this`ackRanges, this`nakRanges, this`abs, cc`oldestUnsentAck, cc`expectedNextSeq, cc`expected
      ensures Valid() && abs == Noted(old(abs), n)
      ensures cc.oldestUnsentAck == if old(cc.oldestUnsentAck) == 0.0 then now else old(cc.oldestUnsentAck)
      ensures taken <==> Congestion.Got(old(abs).expected, n).1.Some?
    {
      var skipped := cc.OnGotPacket(sq, now, n);
      if skipped.None? {
        return false;
      }
      NoteLists(sq, skipped.value, n, cc.expected);
      taken := true;
    }

    /** The ACK and NAK lists after an accepted number. */
    method NoteLists(sq: int, skipped: nat, ghost n: int, ghost expected: int)
      requires Inside() && sq == Wire(n) && skipped < HALF_SEQ && abs.expected <= expected
      requires skipped > 0 ==> -HALF_SEQ <= n - skipped - abs.recent.base && n - abs.recent.base < HALF_SEQ
      modifies this`ackRanges, this`nakRanges, this`abs
      ensures Inside()
      ensures abs == old(abs).(expected := expected, acks := old(abs).acks + {n},
                               naks := old(abs).naks + Missing(old(abs).recent, n, skipped))
    {
      NoteAck(sq, n);
      abs := abs.(expected := expected, acks := abs.acks + {n});
      NoteGap(sq, skipped, n);
      abs := abs.(naks := abs.naks + Missing(abs.recent, n, skipped));
    }
  }

  lemma {:induction false} VictimsSnoc(r: Receiver, ts: seq<TFrame>, t: TFrame, now: real, timeout: real,
                                       victims: seq<int>, v: int)
    requires Shaped(r) && |victims| == |ts| && (forall x <- ts :: ChannelFits(x)) && ChannelFits(t)
    requires VictimsOk(r, ts, now, timeout, victims)
    requires VictimOk(ReceiverSpec.HandleFrames(r, ts, now, timeout, victims).trackers, FragmentOf(t.f), now, timeout, v)
    ensures VictimsOk(r, ts + [t], now, timeout, victims + [v])
    decreases |ts|
  {
    if ts == [] {
      assert ts + [t] == [t] && victims + [v] == [v] && [t][1..] == [] && [v][1..] == [];
    } else {
      assert (ts + [t])[1..] == ts[1..] + [t] && (victims + [v])[1..] == victims[1..] + [v];
      assert ts[0] in ts && forall x <- ts[1..] :: x in ts;
      VictimsSnoc(ReceiverSpec.HandleFrame(r, ts[0], now, timeout, victims[0]), ts[1..], t, now, timeout, victims[1..], v);
    }
  }

  /** The flush of c has reached cur and delivered items. */
  ghost predicate Flushing(c: Channel, cur: Channel, items: seq<Handed>) {
    Flush(cur) == Flush(c) && cur.out == c.out + items
  }

  lemma FlushingNext(c: Channel, cur: Channel, items: seq<Handed>)
    requires Flushing(c, cur, items) && HeadDue(cur)
    ensures Flushing(c, FlushOne(cur), items + [cur.heap[0].h])
  {
  }

  lemma FlushingDone(c: Channel, cur: Channel, items: seq<Handed>)
    requires Flushing(c, cur, items) && !HeadDue(cur)
    ensures Flush(c) == cur && c.out <= cur.out && cur.out[|c.out|..] == items
  {
  }

  lemma {:induction false} HandleFramesSnoc(r: Receiver, ts: seq<TFrame>, t: TFrame, now: real, timeout: real,
                                            victims: seq<int>, v: int)
    requires Shaped(r) && |victims| == |ts| && (forall x <- ts :: ChannelFits(x)) && ChannelFits(t)
    ensures ReceiverSpec.HandleFrames(r, ts + [t], now, timeout, victims + [v])
            == ReceiverSpec.HandleFrame(ReceiverSpec.HandleFrames(r, ts, now, timeout, victims), t, now, timeout, v)
    decreases |ts|
  {
    if ts == [] {
      assert [] + [t] == [t] && [] + [v] == [v] && [t][1..] == [] && [v][1..] == [];
      assert ts + [t] == [t] && victims + [v] == [v];
    } else {
      assert (ts + [t])[1..] == ts[1..] + [t] && (victims + [v])[1..] == victims[1..] + [v];
      assert ts[0] in ts && forall x <- ts[1..] :: x in ts;
      HandleFramesSnoc(ReceiverSpec.HandleFrame(r, ts[0], now, timeout, victims[0]), ts[1..], t, now, timeout, victims[1..], v);
    }
  }

  /** The pending numbers with the first i skipped ones from start on that never came. */
  ghost function MissingUpto(naks: set<int>, recent: Recent, start: int, i: nat): set<int> {
    naks + set m | start <= m < start + i && !recent.Has(m)
  }

  lemma NoneMissing(naks: set<int>, recent: Recent, start: int)
    ensures MissingUpto(naks, recent, start, 0) == naks
  {
  }

  lemma MissingNext(naks: set<int>, recent: Recent, start: int, i: nat)
    ensures MissingUpto(naks, recent, start, i + 1)
            == MissingUpto(naks, recent, start, i) + (if recent.Has(start + i) then {} else {start + i})
  {
  }

  lemma MissingAll(naks: set<int>, recent: Recent, n: int, skipped: nat)
    ensures MissingUpto(naks, recent, n - skipped, skipped) == naks + Missing(recent, n, skipped)
  {
  }

  lemma SkippedWire(n: int, skipped: nat)
    ensures Wire(Wire(n) - skipped) == Wire(n - skipped)
  {
    var back: int := skipped;
    WirePlus(n, -back);
  }

  lemma RangesAdd(before: seq<Range>, after: seq<Range>, nums: set<int>, n: int)
    requires RangesRep(before, nums) && Ranges.Separated(after)
    requires forall w :: Ranges.Covers(after, w) <==> Ranges.Covers(before, w) || w == Wire(n)
    ensures RangesRep(after, nums + {n})
  {
    forall w | Ranges.Covers(after, w)
      ensures exists k <- nums + {n} :: Wire(k) == w
    {
      if Ranges.Covers(before, w) {
        var k :| k in nums && Wire(k) == w;
        assert k in nums + {n};
      } else {
        assert n in nums + {n};
      }
    }
  }

  /** On the wire the head is due exactly when it is on unbounded numbers. */
  lemma DueOnWire(c: Channel)
    requires Due(c, 0) && NearHeap(c)
    ensures c.heap != [] ==> WireHeap(c.heap)[0] == WireEntry(c.heap[0]) && WireHeap(c.heap)[1..] == WireHeap(c.heap[1..])
    ensures HeadDue(c) <==> WireHeap(c.heap) != [] && WireHeap(c.heap)[0].oi == Wire(c.expected)
  {
    if c.heap != [] {
      assert c.heap[0] in c.heap;
      WireInjective(c.heap[0].h.oi, c.expected);
    }
  }

  lemma NearTail(c: Channel)
    requires NearHeap(c) && c.heap != []
    ensures NearHeap(FlushOne(c))
  {
    assert forall e <- c.heap[1..] :: e in c.heap;
  }

  lemma EnqueueSplit(queue: seq<(Bytes, int)>, h: Handed, items: seq<Handed>, ch: int)
    ensures Enqueue(queue, [h] + items, ch) == Enqueue(Enqueue(queue, [h], ch), items, ch)
  {
    EnqueueOne(queue, h, ch);
    assert ([h] + items)[1..] == items;
  }

  lemma ExtendDone(ts: map<int, Tracker>, f: Fragment, now: real, after: map<int, Tracker>)
    requires f.id in ts && f.index < ts[f.id].total
    requires after == ts[f.id := Tracker(ts[f.id].total, ts[f.id].received[f.index := f.data], now)] - {f.id}
    ensures after == ts - {f.id}
  {
  }

  lemma {:induction false} OldestExists(ts: map<int, Tracker>, ks: set<int>)
    requires ks != {} && ks <= ts.Keys
    ensures exists k <- ks :: forall j <- ks :: ts[k].lastUpdate <= ts[j].lastUpdate
    decreases |ks|
  {
    var x := Pick(ks);
    if ks == {x} {
      assert forall j <- ks :: ts[x].lastUpdate <= ts[j].lastUpdate;
    } else {
      OldestExists(ts, ks - {x});
      var k :| k in ks - {x} && forall j <- ks - {x} :: ts[k].lastUpdate <= ts[j].lastUpdate;
      var best := if ts[x].lastUpdate <= ts[k].lastUpdate then x else k;
      assert forall j <- ks :: ts[best].lastUpdate <= ts[j].lastUpdate;
    }
  }

  /** `min(..., key=last_update_time)`. */
  method OldestOf(ts: map<int, Tracker>) returns (k: int)
    requires |ts| > 0
    ensures Oldest(ts, k)
  {
    assert ts.Keys != {} by { assert |ts| == |ts.Keys|; }
    OldestExists(ts, ts.Keys);
    k :| k in ts && forall j <- ts.Keys :: ts[k].lastUpdate <= ts[j].lastUpdate;
  }

  /** Some choice of victim is always possible. */
  ghost function AnyVictim(ts: map<int, Tracker>, f: Fragment, now: real, timeout: real): (v: int)
    ensures VictimOk(ts, f, now, timeout, v)
  {
    var live := Live(ts, now, timeout);
    if |live| >= MAX_SPLIT_TRACKERS then
      assert live.Keys != {} by { assert |live| == |live.Keys|; }
      OldestExists(live, live.Keys);
      var k :| k in live && forall j <- live.Keys :: live[k].lastUpdate <= live[j].lastUpdate;
      assert Oldest(live, k);
      k
    else 0
  }
}
