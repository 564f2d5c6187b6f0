/** What reaches the application: the receive queue as a bounded queue over what
    was completed, and what was completed (_reliability.py:336-347, 601-695). */
module Application {
  import opened Types
  import opened Tags
  import opened Windows
  import opened Ordering
  import opened ReceiverSpec
  import Congestion
  import Receiving

  /** What `poll_receive` answers: bytes and channel. */
  type Pair = (Bytes, int)

  // ---------- a bounded queue ----------

  function PairOf(m: Moment): Pair
    requires !m.Taken?
  {
    match m
    case Direct(t, data) => (data, t.f.orderingChannel)
    case Through(ch, h) => (h.data, ch)
  }

  /** A queue of at most 16384: the answers given so far, and what waits. */
  function Fifo(ms: seq<Moment>): (seq<Pair>, seq<Pair>) {
    if ms == [] then ([], [])
    else
      var (answers, waiting) := Fifo(ms[..|ms| - 1]);
      var last := ms[|ms| - 1];
      if last.Taken? then (if waiting == [] then (answers, waiting) else (answers + [waiting[0]], waiting[1..]))
      else if |waiting| < 16384 then (answers, waiting + [PairOf(last)])
      else (answers, waiting)
  }

  /** Everything that came while fewer than 16384 waited, in order. */
  function Kept(ms: seq<Moment>): seq<Pair> {
    if ms == [] then []
    else
      var front, last := ms[..|ms| - 1], ms[|ms| - 1];
      Kept(front) + (if !last.Taken? && |Fifo(front).1| < 16384 then [PairOf(last)] else [])
  }

  /** The answers followed by what waits are exactly the messages that found
      room, each once, in the order they came. */
  lemma {:induction false} AnswersThenWaiting(ms: seq<Moment>)
    ensures Fifo(ms).0 + Fifo(ms).1 == Kept(ms) && |Fifo(ms).1| <= 16384
  {
    if ms != [] {
      AnswersThenWaiting(ms[..|ms| - 1]);
    }
  }

  lemma FifoSnoc(ms: seq<Moment>, m: Moment)
    ensures var (answers, waiting) := Fifo(ms);
      Fifo(ms + [m]) ==
      if m.Taken? then (if waiting == [] then (answers, waiting) else (answers + [waiting[0]], waiting[1..]))
      else if |waiting| < 16384 then (answers, waiting + [PairOf(m)])
      else (answers, waiting)
  {
    assert (ms + [m])[..|ms|] == ms;
  }

  // ---------- what came ----------

  /** What left channel ch, in order. */
  function OutOf(ms: seq<Moment>, ch: int): seq<Handed> {
    if ms == [] then []
    else
      var last := ms[|ms| - 1];
      OutOf(ms[..|ms| - 1], ch) + (if last.Through? && last.ch == ch then [last.h] else [])
  }

  /** Frames that are a whole unordered message. */
  predicate WholeUnordered(t: TFrame) {
    !t.f.reliability.IsOrdered() && t.f.splitCount <= 0
  }

  /** The unsplit messages that came without a channel, with the bytes that came. */
  function WholeDirect(ms: seq<Moment>): seq<(TFrame, Bytes)> {
    if ms == [] then []
    else
      var last := ms[|ms| - 1];
      WholeDirect(ms[..|ms| - 1]) + (if last.Direct? && last.t.f.splitCount <= 0 then [(last.t, last.data)] else [])
  }

  /** The whole unordered frames among those processed, with the bytes they carry. */
  function WholeAmong(ts: seq<TFrame>): seq<(TFrame, Bytes)> {
    if ts == [] then []
    else
      var last := ts[|ts| - 1];
      WholeAmong(ts[..|ts| - 1]) + (if WholeUnordered(last) then [(last, last.f.data)] else [])
  }

  lemma SnocCame(ms: seq<Moment>, m: Moment, ch: int)
    ensures OutOf(ms + [m], ch) == OutOf(ms, ch) + (if m.Through? && m.ch == ch then [m.h] else [])
    ensures WholeDirect(ms + [m]) == WholeDirect(ms) + (if m.Direct? && m.t.f.splitCount <= 0 then [(m.t, m.data)] else [])
  {
    assert (ms + [m])[..|ms|] == ms;
  }

  lemma SnocWhole(ts: seq<TFrame>, t: TFrame)
    ensures WholeAmong(ts + [t]) == WholeAmong(ts) + (if WholeUnordered(t) then [(t, t.f.data)] else [])
  {
    assert (ts + [t])[..|ts|] == ts;
  }

  // ---------- what every step keeps ----------

  /** The receive queue is what the bounded queue holds; what came through a
      channel is what the channel delivered; what came without one and unsplit
      are the whole unordered frames processed, each once, in order. */
  ghost predicate QueueOk(r: Receiver) {
    Shaped(r) && Fifo(r.moments).1 == r.queue
    && forall ch: nat :: ch < NUMBER_OF_ORDERED_STREAMS ==> OutOf(r.moments, ch) == r.chans[ch].out
  }

  ghost predicate AppInv(r: Receiver) {
    QueueOk(r) && WholeDirect(r.moments) == WholeAmong(r.processed)
  }

  lemma LeavingCons(ms: seq<Moment>, items: seq<Handed>, ch: int)
    requires items != []
    ensures ms + Leaving(items, ch) == ms + [Through(ch, items[0])] + Leaving(items[1..], ch)
  {
  }

  /** Messages leaving a channel enter the queue one after the other. */
  lemma {:induction false} LeavingEnters(ms: seq<Moment>, items: seq<Handed>, ch: int)
    ensures Fifo(ms + Leaving(items, ch)) == (Fifo(ms).0, Enqueue(Fifo(ms).1, items, ch))
    ensures OutOf(ms + Leaving(items, ch), ch) == OutOf(ms, ch) + items
    ensures forall other: int :: other != ch ==> OutOf(ms + Leaving(items, ch), other) == OutOf(ms, other)
    ensures WholeDirect(ms + Leaving(items, ch)) == WholeDirect(ms)
    decreases |items|
  {
    if items == [] {
      assert ms + Leaving(items, ch) == ms;
    } else {
      var m := Through(ch, items[0]);
      LeavingCons(ms, items, ch);
      FifoSnoc(ms, m);
      LeavingEnters(ms + [m], items[1..], ch);
      forall other: int
        ensures OutOf(ms + [m], other) == OutOf(ms, other) + (if ch == other then [items[0]] else [])
      {
        SnocCame(ms, m, other);
      }
      SnocCame(ms, m, ch);
      assert OutOf(ms, ch) + [items[0]] + items[1..] == OutOf(ms, ch) + items;
    }
  }

  /** A channel only adds to what it has delivered. */
  lemma AcceptAppends(c: Channel, h: Handed, cnt: nat)
    ensures c.out <= Accept(c, h, cnt).out
  {
    FlushExtends(Channel(c.expected + 1, -1, c.heap, c.out + [h]));
  }

  lemma RouteOrdered(r: Receiver, t: TFrame, data: Bytes)
    requires QueueOk(r) && ChannelFits(t) && t.f.reliability.IsOrdered()
    ensures QueueOk(Route(r, t, data)) && WholeDirect(Route(r, t, data).moments) == WholeDirect(r.moments)
  {
    var ch := t.f.orderingChannel;
    var c := r.chans[ch];
    var c' := Accept(c, Deliverable(t, data), r.heapCounter + 1);
    AcceptAppends(c, Deliverable(t, data), r.heapCounter + 1);
    var items := c'.out[|c.out|..];
    assert c'.out == c.out + items;
    LeavingEnters(r.moments, items, ch);
  }

  lemma RouteDirect(r: Receiver, t: TFrame, data: Bytes)
    requires QueueOk(r) && ChannelFits(t) && !t.f.reliability.IsOrdered()
    ensures QueueOk(Route(r, t, data))
    ensures WholeDirect(Route(r, t, data).moments) == WholeDirect(r.moments) + (if t.f.splitCount <= 0 then [(t, data)] else [])
  {
    var m := Direct(t, data);
    FifoSnoc(r.moments, m);
    Receiving.EnqueueOne(r.queue, Deliverable(t, data), t.f.orderingChannel);
    forall ch: int
      ensures OutOf(r.moments + [m], ch) == OutOf(r.moments, ch) + []
    {
      SnocCame(r.moments, m, ch);
    }
    SnocCame(r.moments, m, 0);
  }

  lemma QueueSame(r: Receiver, r': Receiver)
    requires QueueOk(r) && r'.queue == r.queue && r'.moments == r.moments && r'.chans == r.chans
    ensures QueueOk(r')
  {
  }

  /** A frame that passed the filters. */
  lemma DispatchQueue(r: Receiver, t: TFrame, now: real, timeout: real, victim: int)
    requires QueueOk(r) && ChannelFits(t)
    ensures var r' := Dispatch(r, t, now, timeout, victim);
      QueueOk(r') && WholeDirect(r'.moments) == WholeDirect(r.moments) + (if WholeUnordered(t) then [(t, t.f.data)] else [])
  {
    var whole := t.f.splitCount <= 0;
    var (r1, out) := Reassembled(r, t, now, timeout, victim);
    QueueSame(r, r1);
    if whole || out.Some? {
      var at := if whole then r else r1;
      var data := if whole then t.f.data else out.value;
      if t.f.reliability.IsOrdered() {
        RouteOrdered(at, t, data);
      } else {
        RouteDirect(at, t, data);
      }
    }
  }

  lemma FrameApp(r: Receiver, t: TFrame, now: real, timeout: real, victim: int)
    requires AppInv(r) && ChannelFits(t)
    ensures AppInv(HandleFrame(r, t, now, timeout, victim))
  {
    var (r1, passed) := Filtered(r, t);
    QueueSame(r, r1);
    if passed {
      SnocWhole(r.processed, t);
      DispatchQueue(r1, t, now, timeout, victim);
      DispatchSameFilter(r1, t, now, timeout, victim);
    }
  }

  lemma {:induction false} FramesApp(r: Receiver, ts: seq<TFrame>, now: real, timeout: real, victims: seq<int>)
    requires AppInv(r) && |victims| == |ts| && forall t <- ts :: ChannelFits(t)
    ensures AppInv(HandleFrames(r, ts, now, timeout, victims))
    decreases |ts|
  {
    if ts != [] {
      assert ts[0] in ts && forall t <- ts[1..] :: t in ts;
      FrameApp(r, ts[0], now, timeout, victims[0]);
      FramesApp(HandleFrame(r, ts[0], now, timeout, victims[0]), ts[1..], now, timeout, victims[1..]);
    }
  }

  lemma AppSame(r: Receiver, r': Receiver)
    requires AppInv(r) && r'.queue == r.queue && r'.moments == r.moments && r'.chans == r.chans && r'.processed == r.processed
    ensures AppInv(r')
  {
  }

  lemma DataApp(r: Receiver, n: int, ts: seq<TFrame>, now: real, timeout: real, victims: seq<int>)
    requires AppInv(r) && |victims| == |ts| && forall t <- ts :: ChannelFits(t)
    ensures AppInv(HandleData(r, n, ts, now, timeout, victims))
  {
    match Congestion.Got(r.expected, n)
    case (_, None) =>
    case (e, Some(skipped)) =>
      var r1 := r.(expected := e, acks := r.acks + {n}, naks := r.naks + Missing(r.recent, n, skipped));
      var r2 := r1.(recent := Record(r.recent, RECEIVED_WINDOW_SIZE, n));
      if r.recent.Has(n) {
        AppSame(r, HandleData(r, n, ts, now, timeout, victims));
      } else {
        AppSame(r, r2);
        FramesApp(r2, ts, now, timeout, victims);
      }
  }

  /** A poll takes the head of what waits. */
  lemma PollApp(r: Receiver)
    requires AppInv(r)
    ensures var (r', answer) := Poll(r);
      AppInv(r')
      && Fifo(r'.moments).0 == Fifo(r.moments).0 + (if answer.Some? then [answer.value] else [])
      && (answer.None? <==> r.queue == [])
  {
    FifoSnoc(r.moments, Taken);
    forall ch: int
      ensures OutOf(r.moments + [Taken], ch) == OutOf(r.moments, ch) + []
    {
      SnocCame(r.moments, Taken, ch);
    }
    SnocCame(r.moments, Taken, 0);
  }
}
