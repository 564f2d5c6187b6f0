/** One ordering channel of the receiver: ordered and sequenced messages share
    a heap (_reliability.py:45-49, 623-695).  Indices are unbounded here. */
module Ordering {
  import opened SeqNum
  import opened Types

  /** Heap sub-key of ordered messages; sequenced ones use their sequencing index. */
  const ORDERED_SUBKEY := 1048575

  /** A message handed to a channel.  mid names the message; the code never sees it. */
  datatype Handed = Handed(mid: nat, oi: int, sub: int, isOrdered: bool, data: Bytes)

  datatype Entry = Entry(h: Handed, cnt: nat)

  /** out is everything delivered so far. */
  datatype Channel = Channel(expected: int, highest: int, heap: seq<Entry>, out: seq<Handed>)

  /** Lexicographic order of (ordering index, sub-key). */
  predicate KeyLess(a: Handed, b: Handed) {
    a.oi < b.oi || (a.oi == b.oi && a.sub < b.sub)
  }

  predicate SameKey(a: Handed, b: Handed) {
    a.oi == b.oi && a.sub == b.sub
  }

  /** Heap order: the tuples (ordering index, sub-key, counter). */
  predicate EntryLess(a: Entry, b: Entry) {
    KeyLess(a.h, b.h) || (SameKey(a.h, b.h) && a.cnt < b.cnt)
  }

  /** heapq.heappush on the sorted contents of the heap. */
  function Push(heap: seq<Entry>, e: Entry): seq<Entry> {
    if heap == [] || EntryLess(e, heap[0]) then [e] + heap
    else [heap[0]] + Push(heap[1..], e)
  }

  /** The head of the heap is delivered. */
  function FlushOne(c: Channel): Channel
    requires c.heap != []
  {
    var h := c.heap[0].h;
    if h.isOrdered then Channel(c.expected + 1, -1, c.heap[1..], c.out + [h])
    else Channel(c.expected, h.sub, c.heap[1..], c.out + [h])
  }

  predicate HeadDue(c: Channel) {
    c.heap != [] && c.heap[0].h.oi == c.expected
  }

  function Flush(c: Channel): Channel
    decreases |c.heap|
  {
    if HeadDue(c) then Flush(FlushOne(c)) else c
  }

  function Buffer(c: Channel, e: Entry): Channel {
    if |c.heap| < MAX_ORDERING_HEAP_SIZE then c.(heap := Push(c.heap, e)) else c
  }

  predicate Newer(sub: int, highest: int) {
    highest == -1 || SeqGreaterThan(Wire(sub), Wire(highest))
  }

  /** One message reaches the channel; cnt is the heap counter it would get. */
  function Accept(c: Channel, h: Handed, cnt: nat): Channel {
    if h.oi == c.expected then
      if h.isOrdered then Flush(Channel(c.expected + 1, -1, c.heap, c.out + [h]))
      else if Newer(h.sub, c.highest) then c.(highest := h.sub, out := c.out + [h])
      else c
    else if h.oi > c.expected then Buffer(c, Entry(h, cnt))
    else c
  }

  // ---------- order ----------

  /** Ordered messages carry the top sub-key, sequenced ones a smaller one. */
  predicate WellKeyed(h: Handed) {
    if h.isOrdered then h.sub == ORDERED_SUBKEY else 0 <= h.sub < ORDERED_SUBKEY
  }

  ghost predicate HeapOk(heap: seq<Entry>) {
    (forall e <- heap :: WellKeyed(e.h)) && (forall i, j :: 0 <= i < j < |heap| ==> KeyLess(heap[i].h, heap[j].h))
  }

  /** The position the channel has reached: everything delivered is at or
      before (expected, highest). */
  predicate Reached(c: Channel, h: Handed) {
    h.oi < c.expected || (h.oi == c.expected && !h.isOrdered && h.sub <= c.highest)
  }

  ghost predicate Increasing(out: seq<Handed>) {
    forall i, j :: 0 <= i < j < |out| ==> KeyLess(out[i], out[j])
  }

  function OrderedOf(out: seq<Handed>): seq<Handed> {
    if out == [] then []
    else OrderedOf(out[..|out| - 1]) + (if out[|out| - 1].isOrdered then [out[|out| - 1]] else [])
  }

  /** The ordered deliveries are the indices from first on, without a hole. */
  ghost predicate Consecutive(out: seq<Handed>, first: int, expected: int) {
    |OrderedOf(out)| == expected - first
    && forall k :: 0 <= k < |OrderedOf(out)| ==> OrderedOf(out)[k].oi == first + k
  }

  ghost predicate Progress(c: Channel, first: int) {
    HeapOk(c.heap) && (forall h <- c.out :: WellKeyed(h) && Reached(c, h))
    && Increasing(c.out) && Consecutive(c.out, first, c.expected)
    && -1 <= c.highest < ORDERED_SUBKEY
  }

  /** Between two frames nothing deliverable is left in the heap. */
  ghost predicate ChannelInv(c: Channel, first: int) {
    Progress(c, first) && forall e <- c.heap :: e.h.oi > c.expected
  }

  /** What the sender and the duplicate filters guarantee about a frame. */
  ghost predicate Fits(c: Channel, h: Handed) {
    WellKeyed(h) && forall e <- c.heap :: !SameKey(e.h, h)
  }

  lemma {:induction false} PushKeeps(heap: seq<Entry>, e: Entry)
    requires HeapOk(heap) && WellKeyed(e.h) && forall x <- heap :: !SameKey(x.h, e.h)
    ensures HeapOk(Push(heap, e)) && |Push(heap, e)| == |heap| + 1
    ensures forall x :: x in Push(heap, e) <==> x in heap || x == e
  {
    if heap != [] {
      assert heap == [heap[0]] + heap[1..];
      if !EntryLess(e, heap[0]) {
        PushKeeps(heap[1..], e);
        assert heap[0] in heap;
        forall x | x in Push(heap[1..], e)
          ensures KeyLess(heap[0].h, x.h)
        {
          if x != e {
            var k :| 0 <= k < |heap[1..]| && heap[1..][k] == x;
            assert heap[k + 1] == x;
          }
        }
      } else {
        forall x | x in heap
          ensures KeyLess(e.h, x.h)
        {
          var k :| 0 <= k < |heap| && heap[k] == x;
        }
      }
    }
  }

  lemma OrderedSnoc(out: seq<Handed>, h: Handed)
    ensures OrderedOf(out + [h]) == OrderedOf(out) + (if h.isOrdered then [h] else [])
  {
    assert (out + [h])[..|out|] == out;
  }

  /** Delivering a message beyond everything delivered keeps the order. */
  lemma DeliverKeeps(c: Channel, h: Handed, first: int, next: Channel)
    requires Progress(c, first) && WellKeyed(h) && h.oi == c.expected && (h.isOrdered || h.sub > c.highest)
    requires next == (if h.isOrdered then Channel(c.expected + 1, -1, next.heap, c.out + [h])
                      else Channel(c.expected, h.sub, next.heap, c.out + [h]))
    requires HeapOk(next.heap)
    ensures Progress(next, first)
  {
    OrderedSnoc(c.out, h);
    forall i | 0 <= i < |c.out|
      ensures KeyLess(c.out[i], h)
    {
      assert c.out[i] in c.out;
    }
  }

  /** Everything buffered lies beyond the position reached. */
  ghost predicate Due(c: Channel, first: int) {
    Progress(c, first)
    && forall e <- c.heap :: e.h.oi > c.expected || (e.h.oi == c.expected && e.h.sub > c.highest)
  }

  lemma TailAfterHead(heap: seq<Entry>)
    requires HeapOk(heap) && heap != []
    ensures HeapOk(heap[1..]) && forall e <- heap[1..] :: e in heap && KeyLess(heap[0].h, e.h)
  {
    forall e | e in heap[1..]
      ensures e in heap && KeyLess(heap[0].h, e.h)
    {
      var k :| 0 <= k < |heap[1..]| && heap[1..][k] == e;
      assert heap[k + 1] == e;
    }
  }

  lemma FlushOneKeeps(c: Channel, first: int)
    requires Due(c, first) && HeadDue(c)
    ensures Due(FlushOne(c), first)
  {
    TailAfterHead(c.heap);
    assert c.heap[0] in c.heap;
    DeliverKeeps(c, c.heap[0].h, first, FlushOne(c));
  }

  /** Flushing delivers in order everything that has become due and leaves
      only later slots. */
  lemma {:induction false} FlushKeeps(c: Channel, first: int)
    requires Due(c, first)
    ensures ChannelInv(Flush(c), first) && Flush(c).expected >= c.expected
    decreases |c.heap|
  {
    if HeadDue(c) {
      FlushOneKeeps(c, first);
      FlushKeeps(FlushOne(c), first);
    } else if c.heap != [] {
      TailAfterHead(c.heap);
      assert c.heap[0] in c.heap;
      assert c.heap == [c.heap[0]] + c.heap[1..];
    }
  }

  /** After every frame the heap holds only later slots, and the deliveries
      strictly increase and are consecutive in their ordered part. */
  lemma AcceptKeeps(c: Channel, h: Handed, cnt: nat, first: int)
    requires ChannelInv(c, first) && Fits(c, h)
    ensures ChannelInv(Accept(c, h, cnt), first) && Accept(c, h, cnt).expected >= c.expected
  {
    if h.oi == c.expected {
      if h.isOrdered {
        var next := Channel(c.expected + 1, -1, c.heap, c.out + [h]);
        DeliverKeeps(c, h, first, next);
        assert forall e <- c.heap :: e.h.oi > c.expected && e.h.sub > -1;
        FlushKeeps(next, first);
      } else if Newer(h.sub, c.highest) {
        if c.highest != -1 {
          SeqGreaterIsGreater(h.sub, c.highest);
        }
        DeliverKeeps(c, h, first, c.(highest := h.sub, out := c.out + [h]));
      }
    } else if h.oi > c.expected {
      PushKeeps(c.heap, Entry(h, cnt));
    }
  }

  // ---------- nothing invented, nothing withheld ----------

  /** Everything delivered or buffered was handed over. */
  ghost predicate From(c: Channel, log: set<Handed>) {
    (forall h <- c.out :: h in log) && forall e <- c.heap :: e.h in log
  }

  lemma {:induction false} FlushFrom(c: Channel, log: set<Handed>)
    requires From(c, log)
    ensures From(Flush(c), log)
    decreases |c.heap|
  {
    if HeadDue(c) {
      assert c.heap[0] in c.heap && forall e <- c.heap[1..] :: e in c.heap;
      FlushFrom(FlushOne(c), log);
    }
  }

  lemma {:induction false} FlushExtends(c: Channel)
    ensures c.out <= Flush(c).out
    decreases |c.heap|
  {
    if HeadDue(c) {
      FlushExtends(FlushOne(c));
    }
  }

  lemma {:induction false} PushElements(heap: seq<Entry>, e: Entry)
    ensures forall x :: x in Push(heap, e) <==> x in heap || x == e
  {
    if heap != [] && !EntryLess(e, heap[0]) {
      PushElements(heap[1..], e);
      assert heap == [heap[0]] + heap[1..];
    }
  }

  lemma AcceptFrom(c: Channel, h: Handed, cnt: nat, log: set<Handed>)
    requires From(c, log) && h in log
    ensures From(Accept(c, h, cnt), log)
  {
    if h.oi == c.expected && h.isOrdered {
      FlushFrom(Channel(c.expected + 1, -1, c.heap, c.out + [h]), log);
    } else if h.oi > c.expected {
      PushElements(c.heap, Entry(h, cnt));
    }
  }

  /** Every ordered message handed over has been passed by expected or waits in the heap. */
  ghost predicate Kept(c: Channel, log: set<Handed>) {
    forall h <- log :: h.isOrdered && h.oi >= c.expected ==> exists e <- c.heap :: e.h == h
  }

  lemma {:induction false} FlushKept(c: Channel, log: set<Handed>)
    requires Kept(c, log)
    ensures Kept(Flush(c), log)
    decreases |c.heap|
  {
    if HeadDue(c) {
      var next := FlushOne(c);
      assert c.heap == [c.heap[0]] + c.heap[1..];
      forall h | h in log && h.isOrdered && h.oi >= next.expected
        ensures exists e <- next.heap :: e.h == h
      {
        var e :| e in c.heap && e.h == h;
        assert e in c.heap[1..];
      }
      FlushKept(next, log);
    }
  }

  /** Unless the heap is full, no ordered message is dropped. */
  lemma AcceptKept(c: Channel, h: Handed, cnt: nat, log: set<Handed>)
    requires Kept(c, log) && (h.oi <= c.expected || |c.heap| < MAX_ORDERING_HEAP_SIZE)
    ensures Kept(Accept(c, h, cnt), log + {h})
  {
    if h.oi == c.expected {
      if h.isOrdered {
        assert Kept(Channel(c.expected + 1, -1, c.heap, c.out + [h]), log + {h});
        FlushKept(Channel(c.expected + 1, -1, c.heap, c.out + [h]), log + {h});
      }
    } else if h.oi > c.expected {
      PushElements(c.heap, Entry(h, cnt));
      assert Entry(h, cnt) in Push(c.heap, Entry(h, cnt));
      forall x | x in log + {h} && x.isOrdered && x.oi >= c.expected
        ensures exists e <- Push(c.heap, Entry(h, cnt)) :: e.h == x
      {
        if x != h {
          var e :| e in c.heap && e.h == x;
          assert e in Push(c.heap, Entry(h, cnt));
        }
      }
    }
  }

  // ---------- runs ----------

  function AcceptAll(c: Channel, hs: seq<Handed>, cnt: nat): Channel
    decreases |hs|
  {
    if hs == [] then c else AcceptAll(Accept(c, hs[0], cnt + 1), hs[1..], cnt + 1)
  }

  ghost predicate AllFit(c: Channel, hs: seq<Handed>, cnt: nat)
    decreases |hs|
  {
    hs == [] || (Fits(c, hs[0]) && AllFit(Accept(c, hs[0], cnt + 1), hs[1..], cnt + 1))
  }

  ghost predicate NeverFull(c: Channel, hs: seq<Handed>, cnt: nat)
    decreases |hs|
  {
    hs == [] || (|c.heap| < MAX_ORDERING_HEAP_SIZE && NeverFull(Accept(c, hs[0], cnt + 1), hs[1..], cnt + 1))
  }

  ghost function Elements(hs: seq<Handed>): set<Handed> {
    set h | h in hs
  }

  lemma {:induction false} AcceptAllKeeps(c: Channel, hs: seq<Handed>, cnt: nat, first: int, log: set<Handed>)
    requires ChannelInv(c, first) && From(c, log) && AllFit(c, hs, cnt)
    ensures ChannelInv(AcceptAll(c, hs, cnt), first) && From(AcceptAll(c, hs, cnt), log + Elements(hs))
    decreases |hs|
  {
    if hs != [] {
      AcceptKeeps(c, hs[0], cnt + 1, first);
      AcceptFrom(c, hs[0], cnt + 1, log + {hs[0]});
      AcceptAllKeeps(Accept(c, hs[0], cnt + 1), hs[1..], cnt + 1, first, log + {hs[0]});
      assert log + {hs[0]} + Elements(hs[1..]) == log + Elements(hs) by { assert hs == [hs[0]] + hs[1..]; }
    }
  }

  lemma {:induction false} AcceptAllKept(c: Channel, hs: seq<Handed>, cnt: nat, log: set<Handed>)
    requires Kept(c, log) && NeverFull(c, hs, cnt)
    ensures Kept(AcceptAll(c, hs, cnt), log + Elements(hs))
    decreases |hs|
  {
    if hs != [] {
      AcceptKept(c, hs[0], cnt + 1, log);
      AcceptAllKept(Accept(c, hs[0], cnt + 1), hs[1..], cnt + 1, log + {hs[0]});
      assert log + {hs[0]} + Elements(hs[1..]) == log + Elements(hs) by { assert hs == [hs[0]] + hs[1..]; }
    } else {
      assert log + Elements(hs) == log;
    }
  }

  const FRESH := Channel(0, -1, [], [])

  // ---------- a condition on the messages alone ----------

  ghost predicate DistinctKeys(hs: seq<Handed>) {
    forall i, j :: 0 <= i < j < |hs| ==> !SameKey(hs[i], hs[j])
  }

  ghost predicate AllWellKeyed(hs: seq<Handed>) {
    forall i :: 0 <= i < |hs| ==> WellKeyed(hs[i])
  }

  lemma {:induction false} FlushHeap(c: Channel)
    ensures forall e <- Flush(c).heap :: e in c.heap
    decreases |c.heap|
  {
    if HeadDue(c) {
      assert forall e <- c.heap[1..] :: e in c.heap;
      FlushHeap(FlushOne(c));
    }
  }

  lemma AcceptHeap(c: Channel, h: Handed, cnt: nat)
    ensures forall e <- Accept(c, h, cnt).heap :: e in c.heap || e == Entry(h, cnt)
    ensures |Accept(c, h, cnt).heap| <= |c.heap| + 1
  {
    FlushHeap(Channel(c.expected + 1, -1, c.heap, c.out + [h]));
    FlushShrinks(Channel(c.expected + 1, -1, c.heap, c.out + [h]));
    PushElements(c.heap, Entry(h, cnt));
    PushLength(c.heap, Entry(h, cnt));
  }

  lemma {:induction false} FlushShrinks(c: Channel)
    ensures |Flush(c).heap| <= |c.heap|
    decreases |c.heap|
  {
    if HeadDue(c) {
      FlushShrinks(FlushOne(c));
    }
  }

  lemma {:induction false} PushLength(heap: seq<Entry>, e: Entry)
    ensures |Push(heap, e)| == |heap| + 1
  {
    if heap != [] && !EntryLess(e, heap[0]) {
      PushLength(heap[1..], e);
    }
  }

  ghost predicate ApartFrom(heap: seq<Entry>, hs: seq<Handed>) {
    forall e, i :: e in heap && 0 <= i < |hs| ==> !SameKey(e.h, hs[i])
  }

  /** Messages with keys of their own fit whatever has been buffered of them. */
  lemma {:induction false} DistinctFit(c: Channel, hs: seq<Handed>, cnt: nat)
    requires DistinctKeys(hs) && AllWellKeyed(hs) && ApartFrom(c.heap, hs)
    ensures AllFit(c, hs, cnt)
    decreases |hs|
  {
    if hs != [] {
      AcceptHeap(c, hs[0], cnt + 1);
      forall e, i | e in Accept(c, hs[0], cnt + 1).heap && 0 <= i < |hs[1..]|
        ensures !SameKey(e.h, hs[1..][i])
      {
        assert hs[1..][i] == hs[i + 1];
      }
      DistinctFit(Accept(c, hs[0], cnt + 1), hs[1..], cnt + 1);
    }
  }

  lemma {:induction false} FewNeverFill(c: Channel, hs: seq<Handed>, cnt: nat)
    requires |c.heap| + |hs| <= MAX_ORDERING_HEAP_SIZE
    ensures NeverFull(c, hs, cnt)
    decreases |hs|
  {
    if hs != [] {
      AcceptHeap(c, hs[0], cnt + 1);
      FewNeverFill(Accept(c, hs[0], cnt + 1), hs[1..], cnt + 1);
    }
  }

  /** Whatever the arrival order of messages with distinct keys, a fresh channel
      delivers only what was handed over, in strictly increasing key order, its
      ordered part being the indices 0, 1, ... without a hole; and it stops
      only before an ordered message that has not arrived, unless the heap was
      ever full. */
  lemma ChannelOrder(hs: seq<Handed>)
    requires DistinctKeys(hs) && AllWellKeyed(hs)
    ensures var c := AcceptAll(FRESH, hs, 0);
      Increasing(c.out) && Consecutive(c.out, 0, c.expected) && (forall h <- c.out :: h in hs)
      && (NeverFull(FRESH, hs, 0) || |hs| <= MAX_ORDERING_HEAP_SIZE ==> forall h <- hs :: h.isOrdered ==> h.oi != c.expected)
  {
    var c := AcceptAll(FRESH, hs, 0);
    DistinctFit(FRESH, hs, 0);
    assert OrderedOf([]) == [];
    AcceptAllKeeps(FRESH, hs, 0, 0, {});
    if |hs| <= MAX_ORDERING_HEAP_SIZE {
      FewNeverFill(FRESH, hs, 0);
    }
    if NeverFull(FRESH, hs, 0) {
      StopsAtHole(hs);
    }
  }

  lemma StopsAtHole(hs: seq<Handed>)
    requires DistinctKeys(hs) && AllWellKeyed(hs) && NeverFull(FRESH, hs, 0)
    ensures forall h <- hs :: h.isOrdered ==> h.oi != AcceptAll(FRESH, hs, 0).expected
  {
    var c := AcceptAll(FRESH, hs, 0);
    DistinctFit(FRESH, hs, 0);
    assert OrderedOf([]) == [];
    AcceptAllKeeps(FRESH, hs, 0, 0, {});
    AcceptAllKept(FRESH, hs, 0, {});
    forall h | h in hs && h.isOrdered
      ensures h.oi != c.expected
    {
      assert h in {} + Elements(hs);
      assert h.oi >= c.expected ==> exists e <- c.heap :: e.h == h;
    }
  }

  /** A message ahead of its turn is lost exactly when 8192 are buffered. */
  lemma DroppedExactly(c: Channel, h: Handed, cnt: nat)
    requires h.oi > c.expected
    ensures Accept(c, h, cnt) == c <==> |c.heap| >= MAX_ORDERING_HEAP_SIZE
    ensures |c.heap| < MAX_ORDERING_HEAP_SIZE ==> exists e <- Accept(c, h, cnt).heap :: e.h == h
  {
    PushLength(c.heap, Entry(h, cnt));
    PushElements(c.heap, Entry(h, cnt));
    assert Entry(h, cnt) in Push(c.heap, Entry(h, cnt));
  }

  // ---------- where the guarantees are needed ----------

  /** An entry below the expected index sits on top of the heap. */
  predicate Stranded(c: Channel) {
    c.heap != [] && c.heap[0].h.oi < c.expected
  }

  /** Once an entry is stranded, nothing leaves the heap again, whatever arrives. */
  lemma {:induction false} StrandedForever(c: Channel, hs: seq<Handed>, cnt: nat)
    requires Stranded(c)
    ensures Stranded(AcceptAll(c, hs, cnt))
    ensures forall e :: e in c.heap ==> e in AcceptAll(c, hs, cnt).heap
    decreases |hs|
  {
    if hs != [] {
      PushElements(c.heap, Entry(hs[0], cnt + 1));
      StrandedForever(Accept(c, hs[0], cnt + 1), hs[1..], cnt + 1);
    }
  }

  /** Of two messages in one slot, an ordered one must come last, and there
      must be only one of them: otherwise the heap order buries the other. */
  predicate Clear(a: Handed, b: Handed) {
    a.oi == b.oi ==> (a.isOrdered ==> !b.isOrdered && b.sub < a.sub) && (b.isOrdered ==> !a.isOrdered && a.sub < b.sub)
  }

  /** Sorted as the heap sorts, and no entry buried by another. */
  ghost predicate ClearHeap(heap: seq<Entry>) {
    forall i, j :: 0 <= i < j < |heap| ==> EntryLess(heap[i], heap[j]) && Clear(heap[i].h, heap[j].h)
  }

  ghost predicate AllLater(c: Channel, from: int) {
    ClearHeap(c.heap) && forall i :: 0 <= i < |c.heap| ==> c.heap[i].h.oi >= from
  }

  lemma {:induction false} FlushLater(c: Channel)
    requires AllLater(c, c.expected)
    ensures AllLater(Flush(c), Flush(c).expected + 1)
    decreases |c.heap|
  {
    if HeadDue(c) {
      var next := FlushOne(c);
      forall i | 0 <= i < |next.heap|
        ensures next.heap[i].h.oi >= next.expected
      {
        assert next.heap[i] == c.heap[i + 1];
        assert EntryLess(c.heap[0], c.heap[i + 1]) && Clear(c.heap[0].h, c.heap[i + 1].h);
      }
      FlushLater(next);
    }
  }

  lemma {:induction false} PushClear(heap: seq<Entry>, e: Entry)
    requires ClearHeap(heap) && forall i :: 0 <= i < |heap| ==> heap[i].cnt < e.cnt && Clear(heap[i].h, e.h)
    ensures ClearHeap(Push(heap, e))
  {
    if heap != [] && !EntryLess(e, heap[0]) {
      PushClear(heap[1..], e);
      var after := Push(heap[1..], e);
      forall j | 0 <= j < |after|
        ensures EntryLess(heap[0], after[j]) && Clear(heap[0].h, after[j].h)
      {
        PushElements(heap[1..], e);
        assert after[j] in after;
        if after[j] != e {
          var k :| 0 <= k < |heap[1..]| && heap[1..][k] == after[j];
          assert heap[k + 1] == after[j];
        }
      }
    } else if heap != [] {
      forall j | 0 <= j < |heap|
        ensures EntryLess(e, heap[j])
      {
        assert j == 0 || EntryLess(heap[0], heap[j]);
      }
    }
  }

  /** Nothing buffered is buried, and nothing to come will bury it or be buried. */
  ghost predicate Unburied(c: Channel, hs: seq<Handed>, cnt: nat) {
    AllLater(c, c.expected + 1) && (forall i :: 0 <= i < |c.heap| ==> c.heap[i].cnt <= cnt)
    && (forall i, j :: 0 <= i < |c.heap| && 0 <= j < |hs| ==> Clear(c.heap[i].h, hs[j]))
    && (forall i, j :: 0 <= i < j < |hs| ==> Clear(hs[i], hs[j]))
  }

  lemma AcceptLater(c: Channel, hs: seq<Handed>, cnt: nat)
    requires Unburied(c, hs, cnt) && hs != []
    ensures AllLater(Accept(c, hs[0], cnt + 1), Accept(c, hs[0], cnt + 1).expected + 1)
  {
    var h := hs[0];
    if h.oi == c.expected {
      if h.isOrdered {
        FlushLater(Channel(c.expected + 1, -1, c.heap, c.out + [h]));
      }
    } else if h.oi > c.expected && |c.heap| < MAX_ORDERING_HEAP_SIZE {
      PushClear(c.heap, Entry(h, cnt + 1));
      PushElements(c.heap, Entry(h, cnt + 1));
      var heap := Push(c.heap, Entry(h, cnt + 1));
      forall i | 0 <= i < |heap|
        ensures heap[i].h.oi >= c.expected + 1
      {
        assert heap[i] in heap;
      }
    }
  }

  lemma AcceptUnburied(c: Channel, hs: seq<Handed>, cnt: nat)
    requires Unburied(c, hs, cnt) && hs != []
    ensures Unburied(Accept(c, hs[0], cnt + 1), hs[1..], cnt + 1)
  {
    var c' := Accept(c, hs[0], cnt + 1);
    AcceptLater(c, hs, cnt);
    AcceptHeap(c, hs[0], cnt + 1);
    forall i | 0 <= i < |c'.heap|
      ensures c'.heap[i].cnt <= cnt + 1
      ensures forall j :: 0 <= j < |hs[1..]| ==> Clear(c'.heap[i].h, hs[1..][j])
    {
      assert c'.heap[i] in c'.heap;
      forall j | 0 <= j < |hs[1..]|
        ensures Clear(c'.heap[i].h, hs[1..][j])
      {
        assert hs[1..][j] == hs[j + 1];
      }
    }
  }

  /** If no two messages bury each other nothing ever strands, whatever the
      order they arrive in. */
  lemma {:induction false} ClearNeverStrands(c: Channel, hs: seq<Handed>, cnt: nat)
    requires Unburied(c, hs, cnt)
    ensures !Stranded(AcceptAll(c, hs, cnt))
    decreases |hs|
  {
    if hs != [] {
      AcceptUnburied(c, hs, cnt);
      ClearNeverStrands(Accept(c, hs[0], cnt + 1), hs[1..], cnt + 1);
    }
  }

  /** And the condition is exact: with slot k - 1 awaited, an ordered message
      of slot k, another one of that slot, and the awaited message strand one of
      the two if and only if they are not clear of each other. */
  lemma StrandsExactly(c: Channel, a: Handed, b: Handed, d: Handed, cnt: nat)
    requires |c.heap| == 0 && a.isOrdered && d.isOrdered && a.oi == b.oi == c.expected + 1 && d.oi == c.expected
    ensures Stranded(Accept(Accept(Accept(c, a, cnt), b, cnt + 1), d, cnt + 2)) <==> !Clear(a, b)
  {
    var x, y := Entry(a, cnt), Entry(b, cnt + 1);
    PushOne(c.heap, x);
    PushEither(x, y);
    var two := Push([x], y);
    assert Accept(c, a, cnt) == c.(heap := [x]) && Accept(Accept(c, a, cnt), b, cnt + 1) == c.(heap := two);
    var woken := Channel(c.expected + 1, -1, two, c.out + [d]);
    FlushTwo(woken);
    assert Accept(c.(heap := two), d, cnt + 2) == Flush(woken);
    assert two[0].h.isOrdered <==> !Clear(a, b);
  }

  lemma PushOne(heap: seq<Entry>, x: Entry)
    requires |heap| == 0
    ensures Push(heap, x) == [x]
  {
    assert heap == [];
  }

  lemma PushEither(x: Entry, y: Entry)
    ensures Push([x], y) == if EntryLess(y, x) then [y, x] else [x, y]
  {
    assert [x][1..] == [];
  }

  /** Of two entries due, the second is left behind exactly when the first is ordered. */
  lemma FlushTwo(c: Channel)
    requires |c.heap| == 2 && c.heap[0].h.oi == c.heap[1].h.oi == c.expected
    ensures Stranded(Flush(c)) <==> c.heap[0].h.isOrdered
  {
    var next := FlushOne(c);
    assert next.heap == [c.heap[1]] && Flush(c) == Flush(next);
    if !c.heap[0].h.isOrdered {
      var last := FlushOne(next);
      assert Flush(next) == Flush(last) && |last.heap| == 0 && Flush(last) == last;
    }
  }

  lemma PushTwo(a: Entry, b: Entry)
    requires !EntryLess(b, a)
    ensures Push([a], b) == [a, b] && Push([], a) == [a]
  {
    assert Push([a][1..], b) == [b];
  }

  lemma PopOrdered(c: Channel)
    requires |c.heap| == 2 && c.heap[0].h.isOrdered && c.heap[0].h.oi == c.expected && c.heap[1].h.oi == c.expected
    ensures Flush(c) == Channel(c.expected + 1, -1, [c.heap[1]], c.out + [c.heap[0].h])
  {
    assert c.heap[1..] == [c.heap[1]];
  }

  /** A second buffered message with the key of an ordered one is stranded as
      soon as their slot is reached. */
  lemma DuplicateStrands(a: Handed, b: Handed, d: Handed)
    requires a.isOrdered && d.isOrdered && SameKey(a, b) && a.oi == 1 && d.oi == 0
    ensures var c := Accept(Accept(Accept(FRESH, a, 1), b, 2), d, 3);
      c.out == [d, a] && c.heap == [Entry(b, 2)] && Stranded(c)
  {
    PushTwo(Entry(a, 1), Entry(b, 2));
    var buffered := Channel(0, -1, [Entry(a, 1), Entry(b, 2)], []);
    assert Accept(Accept(FRESH, a, 1), b, 2) == buffered;
    assert [] + [d] == [d] && [d] + [a] == [d, a];
    PopOrdered(Channel(1, -1, buffered.heap, [d]));
    assert Accept(buffered, d, 3) == Flush(Channel(1, -1, buffered.heap, [d]));
  }

  /** A sequenced message whose index has passed the ordered sub-key sorts
      behind the ordered message of its slot and is stranded likewise. */
  lemma LateSequencedStrands(a: Handed, s: Handed, d: Handed)
    requires a.isOrdered && !s.isOrdered && d.isOrdered && a.sub == ORDERED_SUBKEY < s.sub
    requires a.oi == 1 && s.oi == 1 && d.oi == 0
    ensures var c := Accept(Accept(Accept(FRESH, a, 1), s, 2), d, 3);
      c.out == [d, a] && c.heap == [Entry(s, 2)] && Stranded(c)
  {
    PushTwo(Entry(a, 1), Entry(s, 2));
    var buffered := Channel(0, -1, [Entry(a, 1), Entry(s, 2)], []);
    assert Accept(Accept(FRESH, a, 1), s, 2) == buffered;
    assert [] + [d] == [d] && [d] + [a] == [d, a];
    PopOrdered(Channel(1, -1, buffered.heap, [d]));
    assert Accept(buffered, d, 3) == Flush(Channel(1, -1, buffered.heap, [d]));
  }
}
