/** The send side as the code keeps it: 24-bit numbers and dictionaries keyed
    by them.  Every method refines its counterpart in SenderSpec. */
module Sending {
  import opened SeqNum
  import opened Types
  import opened WireFormat
  import opened Tags
  import opened WireMaps
  import opened SenderSpec
  import SenderBytes
  import SenderQueue
  import Splitting
  import Congestion
  import Codec
  import Ranges

  datatype HeapItem = HeapItem(weight: nat, counter: nat, frame: MessageFrame)

  datatype InFlightMessage = InFlightMessage(frame: MessageFrame, nextActionTime: real, retransmissionTime: real,
                                             timesSent: nat, byteSize: nat)

  datatype DatagramRecord = DatagramRecord(sendTime: real, reliableMessageNumbers: seq<int>, isContinuousSend: bool,
                                           byteSize: nat)

  // ---------- stored forms ----------

  /** A frame as the code holds it: 24-bit counters, -1 until it is numbered. */
  function Stored(f: MessageFrame): MessageFrame {
    if f.reliability.IsReliable() && f.reliableNumber == UNNUMBERED then WireFrame(f).(reliableNumber := UNNUMBERED)
    else WireFrame(f)
  }

  function StoredAll(ts: seq<TFrame>): (r: seq<MessageFrame>)
    ensures |r| == |ts| && forall i :: 0 <= i < |ts| ==> r[i] == Stored(ts[i].f)
  {
    seq(|ts|, i requires 0 <= i < |ts| => Stored(ts[i].f))
  }

  lemma StoredSlice(ts: seq<TFrame>, i: nat, j: nat)
    requires i <= j <= |ts|
    ensures StoredAll(ts)[i..j] == StoredAll(ts[i..j])
  {
  }

  lemma SliceSnoc<T>(s: seq<T>, i: nat, j: nat)
    requires i <= j < |s|
    ensures s[i..j + 1] == s[i..j] + [s[j]]
  {
  }

  function StoredQueue(queue: seq<Queued>): (r: seq<HeapItem>)
    ensures |r| == |queue|
  {
    if queue == [] then [] else [StoredItem(queue[0])] + StoredQueue(queue[1..])
  }

  function StoredItem(e: Queued): HeapItem {
    HeapItem(e.weight, e.counter, Stored(e.t.f))
  }

  function StoredFlight(m: InFlight): InFlightMessage {
    InFlightMessage(Stored(m.t.f), m.nextAction, m.retransmission, m.timesSent, m.byteSize)
  }

  function WireAll(ns: seq<int>): (r: seq<int>)
    ensures |r| == |ns| && forall i :: 0 <= i < |ns| ==> r[i] == Wire(ns[i])
  {
    seq(|ns|, i requires 0 <= i < |ns| => Wire(ns[i]))
  }

  function StoredRecord(r: Record): DatagramRecord {
    DatagramRecord(r.sendTime, WireAll(r.numbers), r.continuous, r.byteSize)
  }

  predicate ItemLess(a: HeapItem, b: HeapItem) {
    a.weight < b.weight || (a.weight == b.weight && a.counter < b.counter)
  }

  function HeapPush(heap: seq<HeapItem>, e: HeapItem): seq<HeapItem> {
    if heap == [] || ItemLess(e, heap[0]) then [e] + heap else [heap[0]] + HeapPush(heap[1..], e)
  }

  lemma {:induction false} PushStored(queue: seq<Queued>, e: Queued)
    ensures StoredQueue(Push(queue, e)) == HeapPush(StoredQueue(queue), StoredItem(e))
  {
    if queue != [] {
      if QueuedLess(e, queue[0]) {
        assert ([e] + queue)[1..] == queue;
      } else {
        PushStored(queue[1..], e);
        assert Push(queue, e)[1..] == Push(queue[1..], e);
      }
    }
  }

  predicate CountersStored(code: seq<int>, counters: seq<nat>) {
    |code| == |counters| && forall i :: 0 <= i < |code| ==> code[i] == Wire(counters[i])
  }

  lemma StoreCounter(code: seq<int>, counters: seq<nat>, ch: nat, v: nat)
    requires CountersStored(code, counters) && ch < |code|
    ensures CountersStored(code[ch := Wire(v)], counters[ch := v])
  {
  }

  /** Keys and numbers in use span less than the circle, with room for `more` new ones. */
  ghost predicate Narrow(s: Sender, more: nat) {
    more < SEQ_MOD
    && (forall k <- s.history :: s.sent + more - SEQ_MOD <= k < s.sent)
    && (forall n <- s.resend :: s.nextReliable + more - SEQ_MOD <= n < s.nextReliable)
    && (forall k <- s.history, i | 0 <= i < |s.history[k].numbers| ::
          s.nextReliable + more - SEQ_MOD <= s.history[k].numbers[i] < s.nextReliable)
  }

  class SendSide {
    const cc: Congestion.CongestionController
    var nextReliableNum: int
    var nextOrderingIndex: seq<int>
    var nextSequencingIndex: seq<int>
    var nextSplitId: int
    var sendQueue: seq<HeapItem>
    var sendQueueCounter: nat
    var priorityNextWeights: seq<nat>
    var resendBuffer: map<int, InFlightMessage>
    var datagramHistory: map<int, DatagramRecord>
    var unackedBytes: int
    var lastReliableSend: real
    ghost var abs: Sender

    ghost predicate Stands(s: Sender)
      reads this
    {
      CountersStand(s) && QueueStands(s) && BuffersStand(s) && lastReliableSend == s.lastReliableSend
    }

    ghost predicate CountersStand(s: Sender)
      reads this`nextReliableNum, this`nextOrderingIndex, this`nextSequencingIndex, this`nextSplitId
    {
      Shaped(s) && nextReliableNum == Wire(s.nextReliable) && OtherCounters(s)
    }

    ghost predicate OtherCounters(s: Sender)
      reads this`nextOrderingIndex, this`nextSequencingIndex, this`nextSplitId
    {
      CountersStored(nextOrderingIndex, s.nextOrdering) && CountersStored(nextSequencingIndex, s.nextSequencing)
      && nextSplitId == s.nextSplit % 0x10000
    }

    ghost predicate QueueStands(s: Sender)
      reads this`sendQueue, this`sendQueueCounter, this`priorityNextWeights
    {
      sendQueue == StoredQueue(s.queue) && sendQueueCounter == s.counter && priorityNextWeights == s.weights
    }

    ghost predicate BuffersStand(s: Sender)
      reads this`resendBuffer, this`datagramHistory, this`unackedBytes
    {
      MapRep(resendBuffer, s.resend, StoredFlight) && MapRep(datagramHistory, s.history, StoredRecord)
      && unackedBytes == s.unacked
    }

    ghost predicate Valid()
      reads this, cc
    {
      cc.Valid() && cc.sent == abs.sent && Stands(abs)
    }

    constructor (cc: Congestion.CongestionController)
      requires cc.Valid() && cc.sent == 0
      ensures Valid() && this.cc == cc && abs == NewSender()
    {
      this.cc := cc;
      nextReliableNum, nextSplitId, sendQueueCounter, unackedBytes := 0, 0, 0, 0;
      nextOrderingIndex := seq(NUMBER_OF_ORDERED_STREAMS, _ => 0);
      nextSequencingIndex := seq(NUMBER_OF_ORDERED_STREAMS, _ => 0);
      sendQueue := [];
      priorityNextWeights := seq(PRIORITIES, p requires 0 <= p < PRIORITIES => InitialWeight(p));
      resendBuffer, datagramHistory := map[], map[];
      lastReliableSend := 0.0;
      abs := NewSender();
    }

    // ---------- send ----------

    method GetNextWeight(priority: nat) returns (w: nat)
      requires priority < PRIORITIES == |priorityNextWeights|
      modifies this`priorityNextWeights
      ensures w == old(priorityNextWeights)[priority]
      ensures priorityNextWeights == old(priorityNextWeights)[priority := w + WeightStep(priority)]
    {
      w := priorityNextWeights[priority];
      var step := Shift(priority) * (priority + 1) + priority;
      priorityNextWeights := priorityNextWeights[priority := w + step];
    }

    method EnqueueFrame(frame: MessageFrame, priority: nat, ghost mid: nat, ghost f: MessageFrame)
      requires Shaped(abs) && QueueStands(abs) && priority < PRIORITIES && frame == Stored(f)
      modifies this`sendQueue, this`sendQueueCounter, this`priorityNextWeights, this`abs
      ensures QueueStands(abs) && abs == Enqueue(old(abs), mid, f, priority)
    {
      var weight := GetNextWeight(priority);
      sendQueueCounter := sendQueueCounter + 1;
      PushStored(abs.queue, Queued(weight, sendQueueCounter, TFrame(|abs.log|, mid, f)));
      sendQueue := HeapPush(sendQueue, HeapItem(weight, sendQueueCounter, frame));
      abs := Enqueue(abs, mid, f, priority);
    }

    /** `_advance_ordering_counters`. */
    method AdvanceOrderingCounters(rel: Reliability, ch: nat) returns (oi: int, sub: int)
      requires CountersStand(abs) && ch < NUMBER_OF_ORDERED_STREAMS
      modifies this`nextOrderingIndex, this`nextSequencingIndex
      ensures CountersStand(Advance(abs, rel, ch))
      ensures oi == Wire(OrderingFor(abs, rel, ch)) && sub == Wire(SequencingFor(abs, rel, ch))
    {
      oi, sub := 0, 0;
      if rel.IsSequenced() {
        sub := nextSequencingIndex[ch];
        WireNext(abs.nextSequencing[ch]);
        StoreCounter(nextSequencingIndex, abs.nextSequencing, ch, abs.nextSequencing[ch] + 1);
        nextSequencingIndex := nextSequencingIndex[ch := Wire(nextSequencingIndex[ch] + 1)];
      }
      if rel.IsOrdered() {
        oi := nextOrderingIndex[ch];
        if !rel.IsSequenced() {
          WireNext(abs.nextOrdering[ch]);
          StoreCounter(nextOrderingIndex, abs.nextOrdering, ch, abs.nextOrdering[ch] + 1);
          StoreCounter(nextSequencingIndex, abs.nextSequencing, ch, 0);
          nextOrderingIndex := nextOrderingIndex[ch := Wire(nextOrderingIndex[ch] + 1)];
          nextSequencingIndex := nextSequencingIndex[ch := 0];
        }
      }
    }

    /** A message that fits one frame (`_build_frame` and `_enqueue_frame`). */
    method QueueWhole(data: Bytes, rel: Reliability, ch: nat, priority: nat, ghost mtu: int, ghost m: Message)
      requires Valid() && priority < PRIORITIES && ch < NUMBER_OF_ORDERED_STREAMS
      requires m == NewMessage(abs, data, rel, ch, mtu) && m.pieces == [data] && m.rel == rel && m.splitId == 0
      modifies this
      ensures Valid()
      ensures abs == EnqueueFrom(Accepted(old(abs), m), |old(abs.msgs)|, m, 0, priority)
    {
      ghost var mid := |abs.msgs|;
      var oi, sub := StartWhole(rel, ch, m);
      var frame := MessageFrame(rel, data, 8 * |data|, if rel.IsReliable() then UNNUMBERED else 0, sub, oi, ch, 0, 0, 0);
      QueueOnly(frame, priority, mid, m);
    }

    /** The message takes its counters. */
    method StartWhole(rel: Reliability, ch: nat, ghost m: Message) returns (oi: int, sub: int)
      requires Stands(abs) && ch < NUMBER_OF_ORDERED_STREAMS && |m.pieces| == 1 && m.rel == rel && m.ch == ch
      requires m.oi == OrderingFor(abs, rel, ch) && m.sub == SequencingFor(abs, rel, ch)
      modifies this`nextOrderingIndex, this`nextSequencingIndex, this`abs
      ensures Stands(abs) && abs == Accepted(old(abs), m) && abs.sent == old(abs.sent)
      ensures oi == Wire(m.oi) && sub == Wire(m.sub)
    {
      oi, sub := AdvanceOrderingCounters(rel, ch);
      abs := Accepted(abs, m);
    }

    method QueueOnly(frame: MessageFrame, priority: nat, ghost mid: nat, ghost m: Message)
      requires Stands(abs) && priority < PRIORITIES && |m.pieces| == 1
      requires frame == Stored(NewFrame(m, 0))
      modifies this`sendQueue, this`sendQueueCounter, this`priorityNextWeights, this`abs
      ensures Stands(abs) && abs == EnqueueFrom(old(abs), mid, m, 0, priority) && abs.sent == old(abs.sent)
    {
      EnqueueFrame(frame, priority, mid, NewFrame(m, 0));
    }

    /** `_split_and_queue`. */
    method SplitAndQueue(data: Bytes, rel: Reliability, ch: nat, maxPayload: nat, priority: nat, ghost m: Message)
      requires Valid() && priority < PRIORITIES && ch < NUMBER_OF_ORDERED_STREAMS && maxPayload > 0
      requires m.pieces == Splitting.Pieces(data, maxPayload) && |m.pieces| > 1 && m.rel == rel && m.ch == ch
      requires m.oi == OrderingFor(abs, rel, ch) && m.sub == SequencingFor(abs, rel, ch)
      requires m.splitId == abs.nextSplit % 0x10000
      modifies this
      ensures Valid()
      ensures abs == EnqueueFrom(Accepted(old(abs), m), |old(abs.msgs)|, m, 0, priority)
    {
      ghost var mid := |abs.msgs|;
      var fragments := Splitting.Fragments(data, maxPayload);
      var splitId, oi, sub := StartSplit(rel, ch, m);
      QueueFragments(fragments, rel, ch, sub, oi, splitId, priority, mid, m);
    }

    /** The split message takes its identifier and its counters. */
    method StartSplit(rel: Reliability, ch: nat, ghost m: Message) returns (splitId: int, oi: int, sub: int)
      requires Stands(abs) && ch < NUMBER_OF_ORDERED_STREAMS && |m.pieces| > 1 && m.rel == rel && m.ch == ch
      requires m.oi == OrderingFor(abs, rel, ch) && m.sub == SequencingFor(abs, rel, ch)
      requires m.splitId == abs.nextSplit % 0x10000
      modifies this`nextSplitId, this`nextOrderingIndex, this`nextSequencingIndex, this`abs
      ensures Stands(abs) && abs == Accepted(old(abs), m)
      ensures splitId == m.splitId && oi == Wire(m.oi) && sub == Wire(m.sub)
    {
      splitId := nextSplitId;
      nextSplitId := (nextSplitId + 1) % 0x10000;
      oi, sub := TakeCounters(rel, ch);
      RecordMessage(m);
    }

    ghost method RecordMessage(m: Message)
      requires QueueStands(abs) && BuffersStand(abs) && lastReliableSend == abs.lastReliableSend && Shaped(abs)
      requires m.ch < NUMBER_OF_ORDERED_STREAMS && |m.pieces| > 1
      requires CountersStand(Advance(abs, m.rel, m.ch).(nextSplit := abs.nextSplit + 1))
      modifies this`abs
      ensures Stands(abs) && abs == Accepted(old(abs), m)
    {
      abs := Accepted(abs, m);
    }

    /** The enqueueing loop of `_split_and_queue`. */
    method QueueFragments(fragments: seq<Bytes>, rel: Reliability, ch: nat, sub: int, oi: int, splitId: int,
                          priority: nat, ghost mid: nat, ghost m: Message)
      requires Stands(abs) && priority < PRIORITIES && fragments == m.pieces && |m.pieces| > 1
      requires rel == m.rel && ch == m.ch && sub == Wire(m.sub) && oi == Wire(m.oi) && splitId == m.splitId
      modifies this`sendQueue, this`sendQueueCounter, this`priorityNextWeights, this`abs
      ensures Stands(abs) && abs == EnqueueFrom(old(abs), mid, m, 0, priority) && abs.sent == old(abs.sent)
    {
      SenderBytes.EnqueueFromBytes(abs, mid, m, 0, priority);
      var total := |fragments|;
      for i := 0 to total
        invariant Stands(abs)
        invariant EnqueueFrom(old(abs), mid, m, 0, priority) == EnqueueFrom(abs, mid, m, i, priority)
      {
        var frame := MessageFrame(rel, fragments[i], 8 * |fragments[i]|, if rel.IsReliable() then UNNUMBERED else 0,
                                  sub, oi, ch, total, splitId, i);
        QueueFragment(frame, priority, mid, m, i);
      }
    }

    method TakeCounters(rel: Reliability, ch: nat) returns (oi: int, sub: int)
      requires ch < NUMBER_OF_ORDERED_STREAMS && nextSplitId == (abs.nextSplit + 1) % 0x10000
      requires Shaped(abs) && nextReliableNum == Wire(abs.nextReliable)
      requires CountersStored(nextOrderingIndex, abs.nextOrdering) && CountersStored(nextSequencingIndex, abs.nextSequencing)
      modifies this`nextOrderingIndex, this`nextSequencingIndex, this`abs
      ensures abs == old(abs) && CountersStand(Advance(abs, rel, ch).(nextSplit := abs.nextSplit + 1))
      ensures oi == Wire(OrderingFor(abs, rel, ch)) && sub == Wire(SequencingFor(abs, rel, ch))
    {
      ghost var s := abs;
      abs := s.(nextSplit := s.nextSplit + 1);
      oi, sub := AdvanceOrderingCounters(rel, ch);
      abs := s;
    }

    method QueueFragment(frame: MessageFrame, priority: nat, ghost mid: nat, ghost m: Message, ghost i: nat)
      requires Stands(abs) && priority < PRIORITIES && i < |m.pieces| && |m.pieces| > 1
      requires frame == MessageFrame(m.rel, m.pieces[i], 8 * |m.pieces[i]|, if m.rel.IsReliable() then UNNUMBERED else 0,
                                     Wire(m.sub), Wire(m.oi), m.ch, |m.pieces|, m.splitId, i)
      modifies this`sendQueue, this`sendQueueCounter, this`priorityNextWeights, this`abs
      ensures Stands(abs) && abs == Enqueue(old(abs), mid, NewFrame(m, i), priority)
    {
      assert frame == Stored(NewFrame(m, i));
      EnqueueFrame(frame, priority, mid, NewFrame(m, i));
    }

    method Send(data: Bytes, rel: Reliability, ch: int, priority: nat, mtu: int) returns (ok: bool)
      requires Valid() && priority < PRIORITIES
      modifies this
      ensures Valid() && (abs, ok) == SenderSpec.Send(old(abs), data, rel, ch, priority, mtu)
    {
      if !(0 <= ch < NUMBER_OF_ORDERED_STREAMS) {
        return false;
      }
      var maxPayload := MaxPayload(mtu);
      ghost var m := NewMessage(abs, data, rel, ch, mtu);
      if |data| <= maxPayload {
        QueueWhole(data, rel, ch, priority, mtu, m);
      } else {
        Splitting.PiecesJoin(data, maxPayload);
        SplitAndQueue(data, Upgraded(rel), ch, maxPayload, priority, m);
      }
      ok := true;
    }

    // ---------- packing ----------

    /** The inner loop of `_pack_datagrams`: frames from idx on that fit one datagram. */
    method FillDatagram(frames: seq<MessageFrame>, idx: nat, maxPayload: int, ghost ts: seq<TFrame>)
      returns (framesForDg: seq<MessageFrame>, next: nat)
      requires frames == StoredAll(ts) && idx <= |frames|
      ensures next == idx + Fill(ts[idx..], maxPayload, 0) && framesForDg == StoredAll(ts[idx..next])
    {
      framesForDg, next := [], idx;
      var dgSize: nat := 0;
      while next < |frames| && dgSize < maxPayload
        invariant idx <= next <= |frames| && framesForDg == frames[idx..next] && (next == idx <==> dgSize == 0)
        invariant idx + Fill(ts[idx..], maxPayload, 0) == next + Fill(ts[next..], maxPayload, dgSize)
      {
        var frameSize := FrameSize(frames[next]);
        FillNext(ts, next, maxPayload, dgSize);
        if dgSize + frameSize > maxPayload && framesForDg != [] {
          StoredSlice(ts, idx, next);
          return;
        }
        SliceSnoc(frames, idx, next);
        framesForDg := framesForDg + [frames[next]];
        dgSize := dgSize + frameSize;
        next := next + 1;
      }
      StoredSlice(ts, idx, next);
    }

    /** Late numbering. */
    method NumberFrames(frames: seq<MessageFrame>, ghost ts: seq<TFrame>)
      returns (numbered: seq<MessageFrame>, reliableNums: seq<int>)
      requires frames == StoredAll(ts) && nextReliableNum == Wire(abs.nextReliable)
      modifies this`nextReliableNum
      ensures numbered == WireFrames(Number(ts, abs.nextReliable))
      ensures reliableNums == WireAll(ReliableNumbers(Number(ts, abs.nextReliable)))
      ensures nextReliableNum == WireAfter(abs.nextReliable, ts)
    {
      numbered, reliableNums := [], [];
      NumberedNone(ts, abs.nextReliable);
      for i := 0 to |frames|
        invariant NumberedAs(numbered, reliableNums, ts[..i], abs.nextReliable)
        invariant nextReliableNum == WireAfter(abs.nextReliable, ts[..i])
      {
        numbered, reliableNums := NumberNext(frames[i], numbered, reliableNums, ts[..i], ts[i]);
        assert ts[..i + 1] == ts[..i] + [ts[i]];
      }
      assert ts[..|ts|] == ts;
    }

    method NumberNext(frame: MessageFrame, numbered: seq<MessageFrame>, nums: seq<int>, ghost ts: seq<TFrame>, ghost t: TFrame)
      returns (numbered': seq<MessageFrame>, nums': seq<int>)
      requires frame == Stored(t.f) && nextReliableNum == WireAfter(abs.nextReliable, ts)
      requires NumberedAs(numbered, nums, ts, abs.nextReliable)
      modifies this`nextReliableNum
      ensures NumberedAs(numbered', nums', ts + [t], abs.nextReliable)
      ensures nextReliableNum == WireAfter(abs.nextReliable, ts + [t])
    {
      NumberedSnoc(numbered, nums, ts, t, abs.nextReliable);
      var next := NumberFrame(frame, t, NumberAfter(abs.nextReliable, ts));
      numbered', nums' := numbered + [next], nums;
      if next.reliability.IsReliable() {
        nums' := nums + [next.reliableNumber];
      }
    }

    method NumberFrame(frame: MessageFrame, ghost t: TFrame, ghost next: nat) returns (r: MessageFrame)
      requires frame == Stored(t.f) && nextReliableNum == Wire(next)
      modifies this`nextReliableNum
      ensures r == WireFrame(NumberOne(t, next).f)
      ensures nextReliableNum == Wire(if NeedsNumber(t) then next + 1 else next)
    {
      r := frame;
      if frame.reliability.IsReliable() && frame.reliableNumber == UNNUMBERED {
        r := frame.(reliableNumber := nextReliableNum);
        WireNext(next);
        nextReliableNum := Wire(nextReliableNum + 1);
      }
    }

    /** Room is made for the record at capacity, and it goes in. */
    method RecordDatagram(sq: int, rec: DatagramRecord, ghost r: Record) returns (ghost oldest: int)
      requires BuffersStand(abs) && sq == Wire(abs.sent) && sq !in datagramHistory && rec == StoredRecord(r)
      modifies this`datagramHistory, this`unackedBytes
      ensures OldestOk(abs.history, oldest)
      ensures MapRep(datagramHistory, Room(abs.history, oldest)[abs.sent := r], StoredRecord)
      ensures unackedBytes == abs.unacked - Freed(abs.history, oldest) + r.byteSize
    {
      oldest := 0;
      RepSize(datagramHistory, abs.history, StoredRecord);
      if |datagramHistory| >= MAX_DATAGRAM_HISTORY_SIZE {
        oldest := EvictOldest();
      }
      RepPut(datagramHistory, Room(abs.history, oldest), StoredRecord, abs.sent, r);
      datagramHistory := datagramHistory[sq := rec];
      unackedBytes := unackedBytes + rec.byteSize;
    }

    method EvictOldest() returns (ghost oldest: int)
      requires BuffersStand(abs) && datagramHistory != map[]
      modifies this`datagramHistory, this`unackedBytes
      ensures OldestRecord(abs.history, oldest) && MapRep(datagramHistory, abs.history - {oldest}, StoredRecord)
      ensures unackedBytes == abs.unacked - abs.history[oldest].byteSize
      ensures forall w <- datagramHistory :: w in old(datagramHistory)
    {
      var oldestSeq := OldestSeq(datagramHistory);
      assert HasWire(abs.history, oldestSeq);
      oldest :| oldest in abs.history && Wire(oldest) == oldestSeq;
      forall k | k in abs.history
        ensures abs.history[oldest].sendTime <= abs.history[k].sendTime
      {
        assert datagramHistory[Wire(oldest)].sendTime <= datagramHistory[Wire(k)].sendTime;
      }
      RepRemove(datagramHistory, abs.history, StoredRecord, oldest);
      unackedBytes := unackedBytes - datagramHistory[oldestSeq].byteSize;
      datagramHistory := datagramHistory - {oldestSeq};
    }

    /** One reliable frame of the datagram in the resend buffer. */
    method TrackFrame(frame: MessageFrame, now: real, rto: real, ghost t: TFrame, ghost resend: map<int, InFlight>)
      requires MapRep(resendBuffer, resend, StoredFlight) && frame == WireFrame(t.f) && !NeedsNumber(t)
      requires t.f.reliability.IsReliable() && forall n <- resend :: Wire(n) == Wire(t.f.reliableNumber) ==> n == t.f.reliableNumber
      modifies this`resendBuffer, this`lastReliableSend
      ensures MapRep(resendBuffer, TrackOne(resend, t, now, rto), StoredFlight) && lastReliableSend == now
    {
      lastReliableSend := now;
      assert frame.reliableNumber in resendBuffer <==> t.f.reliableNumber in resend by {
        assert frame.reliableNumber in resendBuffer ==> HasWire(resend, frame.reliableNumber);
      }
      if frame.reliableNumber in resendBuffer {
        BackOff(frame, now, rto, t, resend);
      } else {
        RepSize(resendBuffer, resend, StoredFlight);
        if |resendBuffer| < MAX_RESEND_BUFFER_SIZE {
          RepPut(resendBuffer, resend, StoredFlight, t.f.reliableNumber, InFlight(t, now + rto, rto, 1, FrameSize(t.f)));
          resendBuffer := resendBuffer[frame.reliableNumber := InFlightMessage(frame, now + rto, rto, 1, FrameSize(frame))];
        }
      }
    }

    /** A tracked frame is sent again: its next time doubles, up to 32 times the timeout. */
    method BackOff(frame: MessageFrame, now: real, rto: real, ghost t: TFrame, ghost resend: map<int, InFlight>)
      requires MapRep(resendBuffer, resend, StoredFlight) && frame == WireFrame(t.f) && t.f.reliability.IsReliable()
      requires t.f.reliableNumber in resend && frame.reliableNumber in resendBuffer
      modifies this`resendBuffer
      ensures MapRep(resendBuffer, TrackOne(resend, t, now, rto), StoredFlight)
    {
      var existing := resendBuffer[frame.reliableNumber];
      var m := existing.(nextActionTime := now + rto * Pow2(Min(existing.timesSent, 5)) as real,
                         retransmissionTime := rto, timesSent := existing.timesSent + 1);
      RepPut(resendBuffer, resend, StoredFlight, t.f.reliableNumber, TrackOne(resend, t, now, rto)[t.f.reliableNumber]);
      resendBuffer := resendBuffer[frame.reliableNumber := m];
    }

    method TrackFrames(frames: seq<MessageFrame>, now: real, rto: real, ghost ts: seq<TFrame>)
      requires MapRep(resendBuffer, abs.resend, StoredFlight) && frames == WireFrames(ts) && Apart(abs.resend, ts)
      modifies this`resendBuffer, this`lastReliableSend
      ensures MapRep(resendBuffer, Track(abs.resend, ts, now, rto), StoredFlight)
      ensures lastReliableSend == if ReliableNumbers(ts) != [] then now else old(lastReliableSend)
    {
      assert ts[..0] == [] && ts[..|ts|] == ts;
      for i := 0 to |frames|
        invariant MapRep(resendBuffer, Track(abs.resend, ts[..i], now, rto), StoredFlight)
        invariant lastReliableSend == if ReliableNumbers(ts[..i]) != [] then now else old(lastReliableSend)
      {
        WireFramesAt(ts, i);
        TrackNext(frames[i], now, rto, ts, i);
        assert ts[..i + 1] == ts[..i] + [ts[i]];
        AppendReliable(ts[..i], ts[i]);
      }
    }

    method TrackNext(frame: MessageFrame, now: real, rto: real, ghost ts: seq<TFrame>, ghost i: nat)
      requires i < |ts| && frame == WireFrame(ts[i].f) && Apart(abs.resend, ts)
      requires MapRep(resendBuffer, Track(abs.resend, ts[..i], now, rto), StoredFlight)
      modifies this`resendBuffer, this`lastReliableSend
      ensures MapRep(resendBuffer, Track(abs.resend, ts[..i + 1], now, rto), StoredFlight)
      ensures lastReliableSend == if ts[i].f.reliability.IsReliable() then now else old(lastReliableSend)
    {
      assert ts[..i + 1] == ts[..i] + [ts[i]];
      TrackSnoc(abs.resend, ts[..i], ts[i], now, rto);
      if frame.reliability.IsReliable() {
        TrackedKeys(abs.resend, ts[..i], now, rto);
        ApartAt(abs.resend, ts, i, Track(abs.resend, ts[..i], now, rto));
        TrackFrame(frame, now, rto, ts[i], Track(abs.resend, ts[..i], now, rto));
      }
    }

    /** The record and the resend buffer after a datagram. */
    method StoreDatagram(sq: int, numbered: seq<MessageFrame>, reliableNums: seq<int>, isContinuous: bool, size: nat,
                         now: real, rto: real, ghost ts: seq<TFrame>, ghost more: bool)
      returns (ghost oldest: int)
      requires BuffersStand(abs) && lastReliableSend == abs.lastReliableSend
      requires sq !in datagramHistory && Apart(abs.resend, Number(ts, abs.nextReliable))
      requires Prepared(abs, ts, more, sq, numbered, reliableNums, isContinuous, size)
      modifies this`datagramHistory, this`unackedBytes, this`resendBuffer, this`lastReliableSend
      ensures OldestOk(abs.history, oldest)
      ensures BuffersStand(Emit(abs, ts, more, now, rto, oldest).0)
      ensures lastReliableSend == Emit(abs, ts, more, now, rto, oldest).0.lastReliableSend
    {
      ghost var numberedTs := Number(ts, abs.nextReliable);
      ghost var r := Record(now, ReliableNumbers(numberedTs), isContinuous, size);
      assert DatagramRecord(now, reliableNums, isContinuous, size) == StoredRecord(r);
      oldest := StoreBoth(sq, DatagramRecord(now, reliableNums, isContinuous, size), numbered, now, rto, r, numberedTs);
    }

    method StoreBoth(sq: int, rec: DatagramRecord, numbered: seq<MessageFrame>, now: real, rto: real, ghost r: Record,
                     ghost ts: seq<TFrame>)
      returns (ghost oldest: int)
      requires BuffersStand(abs) && sq == Wire(abs.sent) && sq !in datagramHistory && rec == StoredRecord(r)
      requires numbered == WireFrames(ts) && Apart(abs.resend, ts)
      modifies this`datagramHistory, this`unackedBytes, this`resendBuffer, this`lastReliableSend
      ensures OldestOk(abs.history, oldest)
      ensures MapRep(datagramHistory, Room(abs.history, oldest)[abs.sent := r], StoredRecord)
      ensures unackedBytes == abs.unacked - Freed(abs.history, oldest) + r.byteSize
      ensures MapRep(resendBuffer, Track(abs.resend, ts, now, rto), StoredFlight)
      ensures lastReliableSend == if ReliableNumbers(ts) != [] then now else old(lastReliableSend)
    {
      oldest := RecordDatagram(sq, rec, r);
      TrackFrames(numbered, now, rto, ts);
    }

    method EncodeNumbered(sq: int, numbered: seq<MessageFrame>, isContinuous: bool, ghost ts: seq<TFrame>, ghost more: bool)
      returns (raw: Bytes)
      requires sq == Wire(abs.sent) && numbered == WireFrames(Number(ts, abs.nextReliable))
      requires isContinuous == (more || abs.queue != [])
      ensures |raw| == 4 + FramesSize(ts)
      ensures raw == SenderBytes.Encoded(NextPacket(abs, ts, more))
    {
      raw := Codec.EncodeDatagram(sq, numbered, isContinuous, false, false);
      SenderBytes.FramesEncoded(Number(ts, abs.nextReliable));
      SenderBytes.NumberSize(ts, abs.nextReliable);
    }

    /** Numbers, datagram number and encoding. */
    method PrepareDatagram(frames: seq<MessageFrame>, more: bool, ghost ts: seq<TFrame>)
      returns (sq: int, numbered: seq<MessageFrame>, reliableNums: seq<int>, isContinuous: bool, raw: Bytes)
      requires cc.Valid() && cc.sent == abs.sent && nextReliableNum == Wire(abs.nextReliable) && QueueStands(abs)
      requires frames == StoredAll(ts)
      modifies this`nextReliableNum, cc`nextDatagramSeq, cc`sent
      ensures cc.Valid() && cc.sent == abs.sent + 1 && nextReliableNum == WireAfter(abs.nextReliable, ts)
      ensures Prepared(abs, ts, more, sq, numbered, reliableNums, isContinuous, |raw|)
      ensures raw == SenderBytes.Encoded(NextPacket(abs, ts, more))
      ensures cc.CurrentWindow() == Congestion.Apply(old(cc.CurrentWindow()), Congestion.Emit)
    {
      numbered, reliableNums := NumberFrames(frames, ts);
      isContinuous := more || sendQueue != [];
      sq := cc.GetAndIncrementSeq();
      raw := EncodeNumbered(sq, numbered, isContinuous, ts, more);
    }

    /** One datagram leaves: the body of the outer loop of `_pack_datagrams`. */
    method EmitDatagram(frames: seq<MessageFrame>, more: bool, now: real, rto: real, ghost ts: seq<TFrame>)
      returns (raw: Bytes, ghost oldest: int)
      requires Valid() && frames == StoredAll(ts) && Wire(abs.sent) !in datagramHistory
      requires Apart(abs.resend, Number(ts, abs.nextReliable))
      modifies this, cc`nextDatagramSeq, cc`sent
      ensures Valid() && OldestOk(old(abs.history), oldest)
      ensures abs == Emit(old(abs), ts, more, now, rto, oldest).0
      ensures raw == SenderBytes.Encoded(NextPacket(old(abs), ts, more))
      ensures cc.CurrentWindow() == Congestion.Apply(old(cc.CurrentWindow()), Congestion.Emit)
    {
      var sq, numbered, reliableNums, isContinuous;
      sq, numbered, reliableNums, isContinuous, raw := PrepareDatagram(frames, more, ts);
      oldest := FinishDatagram(sq, numbered, reliableNums, isContinuous, |raw|, now, rto, ts, more);
    }

    method FinishDatagram(sq: int, numbered: seq<MessageFrame>, reliableNums: seq<int>, isContinuous: bool, size: nat,
                          now: real, rto: real, ghost ts: seq<TFrame>, ghost more: bool)
      returns (ghost oldest: int)
      requires Shaped(abs) && QueueStands(abs) && BuffersStand(abs) && lastReliableSend == abs.lastReliableSend
      requires nextReliableNum == WireAfter(abs.nextReliable, ts) && OtherCounters(abs)
      requires cc.Valid() && cc.sent == abs.sent + 1 && sq !in datagramHistory
      requires Apart(abs.resend, Number(ts, abs.nextReliable))
      requires Prepared(abs, ts, more, sq, numbered, reliableNums, isContinuous, size)
      modifies this`datagramHistory, this`unackedBytes, this`resendBuffer, this`lastReliableSend, this`abs
      ensures Valid() && OldestOk(old(abs.history), oldest)
      ensures abs == Emit(old(abs), ts, more, now, rto, oldest).0
    {
      oldest := StoreDatagram(sq, numbered, reliableNums, isContinuous, size, now, rto, ts, more);
      Commit(ts, more, now, rto, oldest);
    }

    /** The abstract state catches up. */
    ghost method Commit(ts: seq<TFrame>, more: bool, now: real, rto: real, oldest: int)
      requires Shaped(abs) && QueueStands(abs) && BuffersStand(Emit(abs, ts, more, now, rto, oldest).0)
      requires lastReliableSend == Emit(abs, ts, more, now, rto, oldest).0.lastReliableSend
      requires nextReliableNum == WireAfter(abs.nextReliable, ts) && OtherCounters(abs)
      requires cc.Valid() && cc.sent == abs.sent + 1
      modifies this`abs
      ensures Valid() && abs == Emit(old(abs), ts, more, now, rto, oldest).0
    {
      EmitOthers(abs, ts, more, now, rto, oldest);
      abs := Emit(abs, ts, more, now, rto, oldest).0;
    }

    method RequeueFrame(frame: MessageFrame, ghost t: TFrame)
      requires QueueStands(abs) && frame == Stored(t.f)
      modifies this`sendQueue, this`sendQueueCounter, this`abs
      ensures QueueStands(abs) && abs == SenderQueue.RequeueOne(old(abs), t)
    {
      sendQueueCounter := sendQueueCounter + 1;
      PushStored(abs.queue, Queued(0, sendQueueCounter, t));
      sendQueue := HeapPush(sendQueue, HeapItem(0, sendQueueCounter, frame));
      abs := SenderQueue.RequeueOne(abs, t);
    }

    /** Frames that must wait go back with weight 0. */
    method RequeueFrames(frames: seq<MessageFrame>, idx: nat, ghost ts: seq<TFrame>)
      requires QueueStands(abs) && frames == StoredAll(ts) && idx <= |ts|
      modifies this`sendQueue, this`sendQueueCounter, this`abs
      ensures QueueStands(abs) && abs == Requeue(old(abs), ts[idx..])
    {
      for i := idx to |frames|
        invariant QueueStands(abs) && Requeue(old(abs), ts[idx..]) == Requeue(abs, ts[i..])
      {
        assert ts[i..][0] == ts[i] && ts[i..][1..] == ts[i + 1..];
        RequeueFrame(frames[i], ts[i]);
      }
    }

    /** A datagram is filled from the rest and leaves. */
    method EmitFilled(frames: seq<MessageFrame>, idx: nat, maxPayload: int, now: real, rto: real, ghost ts: seq<TFrame>,
                      ghost slack: nat)
      returns (raw: Bytes, next: nat, ghost oldest: int)
      requires Valid() && frames == StoredAll(ts) && idx < |ts| && InReach(abs, ts[idx..], slack) && maxPayload > 0
      modifies this, cc`nextDatagramSeq, cc`sent
      ensures Valid() && OldestOk(old(abs.history), oldest) && idx < next <= |ts| && next - idx == Fill(ts[idx..], maxPayload, 0)
      ensures abs == Emit(old(abs), ts[idx..next], next < |ts|, now, rto, oldest).0 && InReach(abs, ts[next..], slack)
      ensures raw == SenderBytes.Encoded(NextPacket(old(abs), ts[idx..next], next < |ts|))
      ensures cc.CurrentWindow() == Congestion.Apply(old(cc.CurrentWindow()), Congestion.Emit)
    {
      var framesForDg;
      framesForDg, next := FillDatagram(frames, idx, maxPayload, ts);
      ghost var rest, k := ts[idx..], next - idx;
      assert ts[idx..next] == rest[..k] && ts[next..] == rest[k..];
      ReachApart(abs, rest, k, slack);
      ReachFree(abs, datagramHistory, rest, slack);
      ghost var s := abs;
      raw, oldest := EmitDatagram(framesForDg, next < |frames|, now, rto, ts[idx..next]);
      ReachNext(s, rest, k, next < |frames|, now, rto, oldest, slack);
    }

    /** One turn of the outer loop. */
    method PackTurn(frames: seq<MessageFrame>, idx: nat, maxPayload: int, now: real, rto: real,
                    ghost p: Packing, ghost c: Pass, ghost ts: seq<TFrame>, ghost slack: nat)
      returns (raw: Bytes, next: nat, ghost oldest: int)
      requires Valid() && p.s == abs && Going(p, c) && c.max == maxPayload && c.now == now && c.rto == rto
      requires frames == StoredAll(ts) && idx < |ts| && p.rest == ts[idx..] && InReach(abs, p.rest, slack)
      modifies this, cc`nextDatagramSeq, cc`sent
      ensures Valid() && OldestOk(p.s.history, oldest) && idx < next <= |ts|
      ensures abs == PackOne(p, c, oldest).s && PackOne(p, c, oldest).rest == ts[next..] && InReach(abs, ts[next..], slack)
      ensures PackOne(p, c, oldest).out == p.out + [NextPacket(p.s, ts[idx..next], next < |ts|)]
      ensures raw == SenderBytes.Encoded(NextPacket(p.s, ts[idx..next], next < |ts|))
      ensures cc.CurrentWindow() == Congestion.Apply(old(cc.CurrentWindow()), Congestion.Emit)
    {
      raw, next, oldest := EmitFilled(frames, idx, maxPayload, now, rto, ts, slack);
      PackOneFields(p, c, ts, idx, next, oldest);
      if c.limit.Some? {
        LogEmitted(Fids(ts[idx..next]), ts[next..], slack);
      }
    }

    ghost method LogEmitted(fids: seq<nat>, rest: seq<TFrame>, slack: nat)
      requires Valid() && InReach(abs, rest, slack)
      modifies this`abs
      ensures Valid() && InReach(abs, rest, slack) && abs == old(abs).(emitted := old(abs.emitted) + fids)
    {
      abs := abs.(emitted := abs.emitted + fids);
    }

    /** The loop of `_pack_datagrams` stands at p. */
    ghost predicate At(p: Packing, c: Pass, ts: seq<TFrame>, idx: nat, outgoing: seq<Bytes>, slack: nat)
      requires idx <= |ts|
      reads this, cc
    {
      Valid() && p.s == abs && p.rest == ts[idx..] && InReach(abs, p.rest, slack) && Encodes(outgoing, p.out)
      && (c.limit.Some? ==> c.limit.value == cc.cwnd)
    }

    /** The window, but for the counter and the flag the loop sets. */
    function Steady(w: Congestion.Window): Congestion.Window
      reads cc
    {
      w.(nextSeq := cc.nextDatagramSeq, continuous := cc.isContinuousSend)
    }

    /** Whether the loop must stop here: the budget is used up. */
    method OverBudget(isResend: bool, remaining: nat, sentAtLeastOne: bool, ghost p: Packing, ghost c: Pass)
      returns (r: bool)
      requires cc.Valid() && unackedBytes == p.s.unacked && (sentAtLeastOne <==> p.out != [])
      requires c.limit == if isResend then None else Some(cc.cwnd)
      modifies cc`isContinuousSend
      ensures cc.Valid() && r == Exhausted(p, c)
      ensures cc.CurrentWindow() == Steady(old(cc.CurrentWindow())) && cc.nextDatagramSeq == old(cc.nextDatagramSeq)
    {
      if isResend {
        return false;
      }
      var budget := cc.TransmissionBandwidth(unackedBytes, remaining > 1);
      r := budget <= 0 && sentAtLeastOne;
    }

    /** `_pack_datagrams`.  A payload limit of 0 or less fills no datagram, and the frames are gone. */
    method PackDatagrams(frames: seq<MessageFrame>, maxPayload: int, now: real, rto: real, isResend: bool,
                         ghost ts: seq<TFrame>, ghost c: Pass, ghost slack: nat)
      returns (outgoing: seq<Bytes>, ghost olds: seq<int>)
      requires Valid() && frames == StoredAll(ts) && InReach(abs, ts, slack)
      requires c == Pass(maxPayload, now, rto, if isResend then None else Some(cc.cwnd))
      modifies this, cc`nextDatagramSeq, cc`sent, cc`isContinuousSend
      ensures Valid() && Passes(Packing(old(abs), ts, []), c, olds)
      ensures abs == Finish(Packed(Packing(old(abs), ts, []), c, olds), c)
      ensures Encodes(outgoing, Packed(Packing(old(abs), ts, []), c, olds).out)
      ensures cc.CurrentWindow() == Steady(old(cc.CurrentWindow()))
    {
      outgoing, olds := [], [];
      ghost var start := Packing(abs, ts, []);
      ghost var p := start;
      assert ts[0..] == ts;
      var idx := 0;
      var sentAtLeastOne := false;
      while idx < |frames|
        invariant 0 <= idx <= |frames| && At(p, c, ts, idx, outgoing, slack) && Chain(start, c, olds, p)
        invariant sentAtLeastOne <==> p.out != []
        invariant cc.CurrentWindow() == Steady(old(cc.CurrentWindow()))
      {
        var stop;
        stop, outgoing, idx, olds, p :=
          PackStep(frames, idx, maxPayload, now, rto, isResend, sentAtLeastOne, outgoing, start, olds, p, c, ts, slack);
        if stop {
          return;
        }
        sentAtLeastOne := true;
      }
    }

    /** p is what the turns made with olds lead to. */
    ghost predicate Chain(start: Packing, c: Pass, olds: seq<int>, p: Packing) {
      Turns(start, c, olds) && p == Packed(start, c, olds)
    }

    /** The pass has ended at p. */
    ghost predicate Ended(p: Packing, c: Pass, outgoing: seq<Bytes>)
      reads this, cc
    {
      Valid() && !Going(p, c) && abs == Finish(p, c) && Encodes(outgoing, p.out)
    }

    /** The body of the outer loop: it ends the pass or fills one more datagram. */
    method PackStep(frames: seq<MessageFrame>, idx: nat, maxPayload: int, now: real, rto: real, isResend: bool, sent: bool,
                    outgoing: seq<Bytes>, ghost start: Packing, ghost olds: seq<int>, ghost p: Packing, ghost c: Pass,
                    ghost ts: seq<TFrame>, ghost slack: nat)
      returns (stop: bool, outgoing': seq<Bytes>, next: nat, ghost olds': seq<int>, ghost p': Packing)
      requires frames == StoredAll(ts) && idx < |ts| && At(p, c, ts, idx, outgoing, slack) && Chain(start, c, olds, p)
      requires c == Pass(maxPayload, now, rto, if isResend then None else Some(cc.cwnd)) && (sent <==> p.out != [])
      modifies this, cc`nextDatagramSeq, cc`sent, cc`isContinuousSend
      ensures Chain(start, c, olds', p') && cc.CurrentWindow() == Steady(old(cc.CurrentWindow()))
      ensures stop ==> Ended(p', c, outgoing')
      ensures !stop ==> idx < next <= |ts| && At(p', c, ts, next, outgoing', slack) && p'.out != []
    {
      outgoing', next, olds', p' := outgoing, idx, olds, p;
      stop := OverBudget(isResend, |frames| - idx, sent, p, c);
      if stop {
        PutBack(frames, idx, ts, p, c);
        return;
      }
      if maxPayload <= 0 {
        stop := true;
        return;
      }
      outgoing', next, olds', p' := PackNext(frames, idx, maxPayload, now, rto, outgoing, start, olds, p, c, ts, slack);
    }

    /** One turn, and the packet joins the outgoing ones. */
    method PackNext(frames: seq<MessageFrame>, idx: nat, maxPayload: int, now: real, rto: real, outgoing: seq<Bytes>,
                    ghost start: Packing, ghost olds: seq<int>, ghost p: Packing, ghost c: Pass, ghost ts: seq<TFrame>,
                    ghost slack: nat)
      returns (outgoing': seq<Bytes>, next: nat, ghost olds': seq<int>, ghost p': Packing)
      requires frames == StoredAll(ts) && idx < |ts| && At(p, c, ts, idx, outgoing, slack) && Going(p, c)
      requires c.max == maxPayload && c.now == now && c.rto == rto && Chain(start, c, olds, p)
      modifies this, cc`nextDatagramSeq, cc`sent
      ensures idx < next <= |ts| && At(p', c, ts, next, outgoing', slack) && Chain(start, c, olds', p') && p'.out != []
      ensures cc.CurrentWindow() == Congestion.Apply(old(cc.CurrentWindow()), Congestion.Emit)
    {
      var raw;
      ghost var oldest;
      raw, next, oldest := PackTurn(frames, idx, maxPayload, now, rto, p, c, ts, slack);
      MoreTurns(start, c, olds, oldest);
      EncodesSnoc(outgoing, p.out, raw, PackOne(p, c, oldest).out[|p.out|]);
      outgoing', olds', p' := outgoing + [raw], olds + [oldest], PackOne(p, c, oldest);
    }

    method PutBack(frames: seq<MessageFrame>, idx: nat, ghost ts: seq<TFrame>, ghost p: Packing, ghost c: Pass)
      requires Valid() && frames == StoredAll(ts) && idx < |ts| && p.s == abs && p.rest == ts[idx..] && Exhausted(p, c)
      modifies this`sendQueue, this`sendQueueCounter, this`abs
      ensures Valid() && abs == Finish(p, c)
    {
      SenderQueue.RequeueOnly(abs, ts[idx..]);
      RequeueFrames(frames, idx, ts);
    }

    // ---------- update ----------

    /** One stale record goes. */
    method DropRecord(sq: int, ghost n: int)
      requires BuffersStand(abs) && n in abs.history && sq == Wire(n)
      modifies this`datagramHistory, this`unackedBytes, this`abs
      ensures BuffersStand(abs) && abs == Dropped(old(abs), n) && datagramHistory == old(datagramHistory) - {sq}
    {
      RepRemove(datagramHistory, abs.history, StoredRecord, n);
      unackedBytes := unackedBytes - datagramHistory[sq].byteSize;
      datagramHistory := datagramHistory - {sq};
      abs := Dropped(abs, n);
    }

    method EvictStaleHistory(now: real, timeout: real)
      requires BuffersStand(abs)
      modifies this`datagramHistory, this`unackedBytes, this`abs
      ensures BuffersStand(abs) && abs == EvictStale(old(abs), now, timeout)
    {
      var stale := set w | w in datagramHistory && now - datagramHistory[w].sendTime > timeout;
      while stale != {}
        invariant BuffersStand(abs) && EvictStale(abs, now, timeout) == EvictStale(old(abs), now, timeout)
        invariant forall w :: w in stale <==> w in datagramHistory && now - datagramHistory[w].sendTime > timeout
        decreases |stale|
      {
        ghost var any := Pick(stale);
        assert exists w :: w in stale by { assert any in stale; }
        var sq :| sq in stale;
        assert HasWire(abs.history, sq);
        ghost var n :| n in abs.history && Wire(n) == sq;
        DropStale(abs, n, now, timeout);
        DropRecord(sq, n);
        stale := stale - {sq};
      }
      NothingStale(abs, datagramHistory, now, timeout);
    }

    /** The tracked frame under key w joins the list if its time has come. */
    method TakeDue(w: int, now: real, frames: seq<MessageFrame>, ghost order: seq<int>, ghost todo: set<int>)
      returns (after: seq<MessageFrame>, ghost orderAfter: seq<int>)
      requires MapRep(resendBuffer, abs.resend, StoredFlight) && w in todo && w in resendBuffer
      requires DueSoFar(abs.resend, now, order, todo) && frames == StoredAll(DueFrames(abs.resend, order))
      ensures DueSoFar(abs.resend, now, orderAfter, todo - {w}) && after == StoredAll(DueFrames(abs.resend, orderAfter))
    {
      after, orderAfter := frames, order;
      assert HasWire(abs.resend, w);
      ghost var n :| n in abs.resend && Wire(n) == w;
      assert resendBuffer[Wire(n)] == StoredFlight(abs.resend[n]);
      DueStep(abs.resend, now, order, todo, n);
      var msg := resendBuffer[w];
      if now >= msg.nextActionTime {
        DueSnoc(abs.resend, order, n);
        after, orderAfter := frames + [msg.frame], order + [n];
      }
    }

    /** The frames whose time has come. */
    method CollectDue(now: real) returns (frames: seq<MessageFrame>, ghost order: seq<int>)
      requires BuffersStand(abs)
      ensures DueOrder(abs, now, order) && frames == StoredAll(DueFrames(abs.resend, order))
    {
      frames, order := [], [];
      var todo := resendBuffer.Keys;
      while todo != {}
        invariant todo <= resendBuffer.Keys && DueSoFar(abs.resend, now, order, todo)
        invariant frames == StoredAll(DueFrames(abs.resend, order))
        decreases |todo|
      {
        ghost var any := Pick(todo);
        assert exists w :: w in todo by { assert any in todo; }
        var w :| w in todo;
        frames, order := TakeDue(w, now, frames, order, todo);
        todo := todo - {w};
      }
    }

    /** The resend part of a tick: due frames go out again, past the window. */
    method ResendDue(mtu: int, now: real, timeout: real, rto: real, ghost c: Pass)
      returns (outgoing: seq<Bytes>, ghost order: seq<int>, ghost olds: seq<int>)
      requires Valid() && CanTick(abs)
      requires c == Pass(MaxDatagramPayload(mtu), now, rto, None)
      modifies this, cc`nextDatagramSeq, cc`sent, cc`isContinuousSend, cc`ssThresh, cc`cwnd, cc`nextCcBlock,
               cc`backedOffThisBlock
      ensures Valid() && DueOrder(old(abs), now, order)
      ensures var p := Packing(EvictStale(old(abs), now, timeout), DueFrames(old(abs).resend, order), []);
        Passes(p, c, olds) && abs == Packed(p, c, olds).s && Encodes(outgoing, Packed(p, c, olds).out)
        && InReach(p.s, p.rest, |p.s.queue|)
      ensures cc.CurrentWindow() ==
              Steady(if order != [] then Congestion.Resent(old(cc.CurrentWindow())) else old(cc.CurrentWindow()))
    {
      var due;
      due, order := PrepareResend(now, timeout);
      DueReach(old(abs), now, timeout, order, |abs.queue|);
      outgoing, olds := PackDatagrams(due, mtu - UDP_HEADER_SIZE - 9, now, rto, true,
                                      DueFrames(old(abs).resend, order), c, |abs.queue|);
    }

    method PrepareResend(now: real, timeout: real) returns (due: seq<MessageFrame>, ghost order: seq<int>)
      requires Valid()
      modifies this`datagramHistory, this`unackedBytes, this`abs, cc`ssThresh, cc`cwnd, cc`nextCcBlock, cc`backedOffThisBlock
      ensures Valid() && DueOrder(old(abs), now, order) && abs == EvictStale(old(abs), now, timeout)
      ensures due == StoredAll(DueFrames(old(abs).resend, order))
      ensures cc.CurrentWindow() ==
              if order != [] then Congestion.Resent(old(cc.CurrentWindow())) else old(cc.CurrentWindow())
    {
      due, order := CollectDue(now);
      if due != [] {
        cc.OnResend();
      }
      EvictStaleHistory(now, timeout);
    }

    /** The whole queue, in heap order. */
    method DrainQueue() returns (frames: seq<MessageFrame>)
      requires QueueStands(abs)
      modifies this`sendQueue, this`abs
      ensures abs == old(abs).(queue := []) && QueueStands(abs) && frames == StoredAll(Frames(old(abs.queue)))
    {
      frames := [];
      ghost var rest := abs.queue;
      while sendQueue != []
        invariant sendQueue == StoredQueue(rest) && abs == old(abs)
        invariant frames + StoredAll(Frames(rest)) == StoredAll(Frames(abs.queue))
        decreases |sendQueue|
      {
        FramesHead(rest);
        assert frames + (StoredAll([rest[0].t]) + StoredAll(Frames(rest[1..])))
            == frames + StoredAll([rest[0].t]) + StoredAll(Frames(rest[1..]));
        frames := frames + [sendQueue[0].frame];
        sendQueue := sendQueue[1..];
        rest := rest[1..];
      }
      assert frames + StoredAll(Frames(rest)) == frames;
      abs := abs.(queue := []);
    }

    /** The pass over new frames. */
    method SendNew(mtu: int, now: real, rto: real, ghost c: Pass) returns (outgoing: seq<Bytes>, ghost olds: seq<int>)
      requires Valid() && InReach(abs, Frames(abs.queue), 0)
      requires c == Pass(MaxDatagramPayload(mtu), now, rto, Some(cc.cwnd))
      modifies this, cc`nextDatagramSeq, cc`sent, cc`isContinuousSend
      ensures Valid() && Passes(Drained(old(abs)), c, olds)
      ensures abs == Finish(Packed(Drained(old(abs)), c, olds), c)
      ensures Encodes(outgoing, Packed(Drained(old(abs)), c, olds).out)
      ensures cc.CurrentWindow() == Steady(old(cc.CurrentWindow()))
    {
      ghost var ts := Frames(abs.queue);
      var frames := DrainQueue();
      outgoing, olds := PackDatagrams(frames, mtu - UDP_HEADER_SIZE - 9, now, rto, false, ts, c, 0);
    }

    /** The sender's share of `update`; the controller hears of a resend before anything is packed. */
    method Update(mtu: int, now: real, timeout: real) returns (outgoing: seq<Bytes>, ghost a: Action)
      requires Valid() && CanTick(abs)
      modifies this, cc`nextDatagramSeq, cc`sent, cc`isContinuousSend, cc`ssThresh, cc`cwnd, cc`nextCcBlock,
               cc`backedOffThisBlock
      ensures Valid() && Ticked(old(abs), a, mtu, abs, outgoing) && a.now == now && a.timeout == timeout
      ensures a.cwnd == cc.cwnd && a.rto == old(Congestion.Rto(cc.CurrentRtt()))
      ensures cc.CurrentWindow() ==
              Steady(if a.order != [] then Congestion.Resent(old(cc.CurrentWindow())) else old(cc.CurrentWindow()))
    {
      var rto := cc.GetRto();
      ghost var order, olds, newOlds;
      ghost var s, c := abs, Pass(MaxDatagramPayload(mtu), now, rto, None);
      outgoing, order, olds := ResendDue(mtu, now, timeout, rto, c);
      ghost var p := Packing(EvictStale(s, now, timeout), DueFrames(s.resend, order), []);
      QueueReach(s, p, c, olds, 0);
      ghost var mid, d := abs, Pass(MaxDatagramPayload(mtu), now, rto, Some(cc.cwnd));
      a := Tick(now, timeout, rto, cc.cwnd, order, olds, []);
      var more;
      more, newOlds := SendNew(mtu, now, rto, d);
      a := Tick(now, timeout, rto, a.cwnd, order, olds, newOlds);
      EncodesConcat(outgoing, Packed(p, c, olds).out, more, Packed(Drained(mid), d, newOlds).out);
      outgoing := outgoing + more;
      IsTick(s, a, mtu, p, c, d, abs, outgoing);
    }

    // ---------- acknowledgements ----------

    /** The messages of an acknowledged datagram leave the resend buffer. */
    method ForgetMessages(rmns: seq<int>, ghost ns: seq<int>)
      requires MapRep(resendBuffer, abs.resend, StoredFlight) && rmns == WireAll(ns) && KeysApart(abs.resend, ns)
      modifies this`resendBuffer
      ensures MapRep(resendBuffer, abs.resend - ElementSet(ns), StoredFlight)
    {
      NoneForgotten(abs.resend, ns);
      for i := 0 to |rmns|
        invariant MapRep(resendBuffer, abs.resend - ElementSet(ns[..i]), StoredFlight)
      {
        ghost var left := abs.resend - ElementSet(ns[..i]);
        ForgetOne(abs.resend, resendBuffer, ns, i);
        if rmns[i] in resendBuffer {
          RepRemove(resendBuffer, left, StoredFlight, ns[i]);
          resendBuffer := resendBuffer - {rmns[i]};
        }
      }
      assert ns[..|ns|] == ns;
    }

    /** The record of an acknowledged datagram goes, and its messages with it. */
    method PopRecord(sq: int, ghost n: int) returns (rec: DatagramRecord)
      requires BuffersStand(abs) && Narrow(abs, 0) && n in abs.history && sq == Wire(n)
      modifies this`datagramHistory, this`unackedBytes, this`resendBuffer, this`abs
      ensures BuffersStand(abs) && abs == AckOne(old(abs), n) && rec == StoredRecord(old(abs).history[n])
    {
      rec := datagramHistory[sq];
      ApartFromRecord(abs, n);
      RepRemove(datagramHistory, abs.history, StoredRecord, n);
      datagramHistory := datagramHistory - {sq};
      unackedBytes := unackedBytes - rec.byteSize;
      ForgetMessages(rec.reliableMessageNumbers, abs.history[n].numbers);
      abs := AckOne(abs, n);
    }

    /** One acknowledged number; start is the state when the packet came in. */
    method AckNumber(sq: int, now: real, ghost start: Sender) returns (ghost n: int)
      requires Valid() && Narrow(abs, 0) && 0 <= sq < SEQ_MOD && Fewer(start, abs)
      modifies this, cc
      ensures Valid() && Narrow(abs, 0) && n == Behind(start.history, sq) && abs == AckOne(old(abs), n)
      ensures cc.expected == old(cc.expected) && cc.oldestUnsentAck == old(cc.oldestUnsentAck)
      ensures cc.CurrentWindow() == WindowAfter(old(cc.CurrentWindow()), old(abs), n)
      ensures cc.CurrentRtt() == RttAfter(old(cc.CurrentRtt()), old(abs), n, now)
    {
      n := Behind(start.history, sq);
      StillBehind(start, abs, datagramHistory, sq);
      if sq in datagramHistory {
        var rec := PopRecord(sq, n);
        cc.OnAck(now - rec.sendTime, sq, rec.isContinuousSend);
      }
    }

    /** The numbers ns of a packet have been acknowledged, in order. */
    ghost predicate HasAcked(start: Sender, w: Congestion.Window, r: Congestion.Rtt, now: real, ns: seq<int>)
      reads this, cc
    {
      Valid() && abs == AckAll(start, ns) && Behinds(start.history, ns)
      && Heard(cc.CurrentWindow(), cc.CurrentRtt(), w, r, start, ns, now)
    }

    /** The traversal of an ACK stands at number k of range i. */
    ghost predicate Acking(start: Sender, w: Congestion.Window, r: Congestion.Rtt, now: real,
                           ranges: seq<Range>, i: nat, k: nat, ns: seq<int>)
      requires i <= |ranges|
      reads this, cc
    {
      HasAcked(start, w, r, now, ns) && Narrow(abs, 0) && Fewer(start, abs) && Ranges.Traversed(ranges, i, k, WireAll(ns))
    }

    method AckStep(ranges: seq<Range>, i: nat, k: nat, sq: int, now: real,
                   ghost start: Sender, ghost w: Congestion.Window, ghost r: Congestion.Rtt, ghost ns: seq<int>)
      returns (next: int, ghost n: int)
      requires i < |ranges| && Acking(start, w, r, now, ranges, i, k, ns) && |ns| < DATAGRAM_MESSAGE_ID_ARRAY_LENGTH
      requires k < |Ranges.Span(ranges[i])| && sq == NumberAt(ranges[i], k)
      modifies this, cc
      ensures Acking(start, w, r, now, ranges, i, k + 1, ns + [n]) && next == NumberAt(ranges[i], k + 1)
      ensures cc.expected == old(cc.expected) && cc.oldestUnsentAck == old(cc.oldestUnsentAck)
    {
      HeardMore(cc.CurrentWindow(), cc.CurrentRtt(), w, r, start, ns, Behind(start.history, sq), now);
      StepMore(ranges, i, k, sq, start, ns);
      AllMore(start, ns, Behind(start.history, sq));
      n := AckNumber(sq, now, start);
      next := NextOf(sq, ranges[i], k);
    }

    /** The numbers of one range; stop says that 512 have been seen. */
    method AckRange(ranges: seq<Range>, i: nat, processed: nat, now: real,
                    ghost start: Sender, ghost w: Congestion.Window, ghost r: Congestion.Rtt, ghost ns0: seq<int>)
      returns (total: nat, stop: bool, ghost ns: seq<int>)
      requires i < |ranges| && RangeFits(ranges[i]) && Acking(start, w, r, now, ranges, i, 0, ns0) && |ns0| == processed
      modifies this, cc
      ensures HasAcked(start, w, r, now, ns) && |ns| == total
      ensures if stop then WireAll(ns) == Ranges.Processed(ranges) else Acking(start, w, r, now, ranges, i + 1, 0, ns)
      ensures cc.expected == old(cc.expected) && cc.oldestUnsentAck == old(cc.oldestUnsentAck)
    {
      total, ns := processed, ns0;
      var count := Min(Ahead(ranges[i].hi, ranges[i].lo) + 1, DATAGRAM_MESSAGE_ID_ARRAY_LENGTH);
      var sq := ranges[i].lo;
      NextNumber(ranges[i], 0);
      for k := 0 to count
        invariant Acking(start, w, r, now, ranges, i, k, ns) && |ns| == total && sq == NumberAt(ranges[i], k)
        invariant cc.expected == old(cc.expected) && cc.oldestUnsentAck == old(cc.oldestUnsentAck)
      {
        if total >= DATAGRAM_MESSAGE_ID_ARRAY_LENGTH {
          Ranges.TraverseFull(ranges, i, k, WireAll(ns));
          return total, true, ns;
        }
        total := total + 1;
        ghost var n;
        sq, n := AckStep(ranges, i, k, sq, now, start, w, r, ns);
        ns := ns + [n];
      }
      Ranges.TraverseRange(ranges, i, count, WireAll(ns));
      stop := false;
    }

    /** `_handle_ack`: the first 512 numbers the packet names, in order; the
        controller hears of each one still on record. */
    method HandleAck(ranges: seq<Range>, now: real)
      requires Valid() && Narrow(abs, 0) && forall r <- ranges :: RangeFits(r)
      modifies this, cc
      ensures HasAcked(old(abs), old(cc.CurrentWindow()), old(cc.CurrentRtt()), now, NamedBy(old(abs), ranges))
      ensures cc.expected == old(cc.expected) && cc.oldestUnsentAck == old(cc.oldestUnsentAck)
    {
      ghost var ns: seq<int> := [];
      ghost var w, r := cc.CurrentWindow(), cc.CurrentRtt();
      var totalProcessed := 0;
      for i := 0 to |ranges|
        invariant Acking(old(abs), w, r, now, ranges, i, 0, ns) && |ns| == totalProcessed
        invariant cc.expected == old(cc.expected) && cc.oldestUnsentAck == old(cc.oldestUnsentAck)
      {
        assert ranges[i] in ranges;
        var stop;
        totalProcessed, stop, ns := AckRange(ranges, i, totalProcessed, now, old(abs), w, r, ns);
        if stop {
          BehindsAll(old(abs), ranges, ns);
          return;
        }
      }
      Ranges.TraverseFull(ranges, |ranges|, 0, WireAll(ns));
      BehindsAll(old(abs), ranges, ns);
    }

    // ---------- negative acknowledgements ----------

    /** The messages of a reported datagram become due at once. */
    method HastenMessages(rmns: seq<int>, ghost ns: seq<int>)
      requires MapRep(resendBuffer, abs.resend, StoredFlight) && rmns == WireAll(ns) && KeysApart(abs.resend, ns)
      modifies this`resendBuffer
      ensures MapRep(resendBuffer, Hastened(abs.resend, ns), StoredFlight)
    {
      NoneHastened(abs.resend, ns);
      for i := 0 to |rmns|
        invariant MapRep(resendBuffer, Hastened(abs.resend, ns[..i]), StoredFlight)
      {
        ghost var so := Hastened(abs.resend, ns[..i]);
        HastenOne(abs.resend, resendBuffer, ns, i);
        if rmns[i] in resendBuffer {
          var msg := resendBuffer[rmns[i]];
          RepPut(resendBuffer, so, StoredFlight, ns[i], so[ns[i]].(nextAction := 0.0));
          resendBuffer := resendBuffer[rmns[i] := msg.(nextActionTime := 0.0)];
        }
      }
      assert ns[..|ns|] == ns;
    }

    method NakNumber(sq: int) returns (ghost n: int)
      requires Valid() && Narrow(abs, 0) && 0 <= sq < SEQ_MOD
      modifies this`resendBuffer, this`abs, cc`ssThresh
      ensures Valid() && Narrow(abs, 0) && n == Behind(old(abs).history, sq) && abs == NakOne(old(abs), n)
      ensures cc.CurrentWindow() ==
              if n in old(abs).history then Congestion.Nakked(old(cc.CurrentWindow())) else old(cc.CurrentWindow())
    {
      n := Behind(abs.history, sq);
      assert sq in datagramHistory ==> HasWire(abs.history, sq);
      if sq in datagramHistory {
        cc.OnNak();
        HastenRecord(datagramHistory[sq], n);
      }
    }

    method HastenRecord(rec: DatagramRecord, ghost n: int)
      requires BuffersStand(abs) && Narrow(abs, 0) && n in abs.history && rec == StoredRecord(abs.history[n])
      modifies this`resendBuffer, this`abs
      ensures BuffersStand(abs) && abs == NakOne(old(abs), n)
    {
      ApartFromRecord(abs, n);
      HastenMessages(rec.reliableMessageNumbers, abs.history[n].numbers);
      abs := NakOne(abs, n);
    }

    /** The numbers ns of a packet have been reported missing, in order. */
    ghost predicate HasNakked(start: Sender, w: Congestion.Window, ns: seq<int>)
      reads this, cc
    {
      Valid() && abs == NakAll(start, ns) && Behinds(start.history, ns) && Warned(cc.CurrentWindow(), w, start, ns)
    }

    ghost predicate Nakking(start: Sender, w: Congestion.Window, ranges: seq<Range>, i: nat, k: nat, ns: seq<int>)
      requires i <= |ranges|
      reads this, cc
    {
      HasNakked(start, w, ns) && Narrow(abs, 0) && abs.history == start.history
      && Ranges.Traversed(ranges, i, k, WireAll(ns))
    }

    method NakStep(ranges: seq<Range>, i: nat, k: nat, sq: int, ghost start: Sender, ghost w: Congestion.Window,
                   ghost ns: seq<int>)
      returns (next: int, ghost n: int)
      requires i < |ranges| && Nakking(start, w, ranges, i, k, ns) && |ns| < DATAGRAM_MESSAGE_ID_ARRAY_LENGTH
      requires k < |Ranges.Span(ranges[i])| && sq == NumberAt(ranges[i], k)
      modifies this`resendBuffer, this`abs, cc`ssThresh
      ensures Nakking(start, w, ranges, i, k + 1, ns + [n]) && next == NumberAt(ranges[i], k + 1)
    {
      WarnedMore(cc.CurrentWindow(), w, start, ns, Behind(start.history, sq));
      StepMore(ranges, i, k, sq, start, ns);
      AllMore(start, ns, Behind(start.history, sq));
      n := NakNumber(sq);
      next := NextOf(sq, ranges[i], k);
    }

    method NakRange(ranges: seq<Range>, i: nat, processed: nat, ghost start: Sender, ghost w: Congestion.Window,
                    ghost ns0: seq<int>)
      returns (total: nat, stop: bool, ghost ns: seq<int>)
      requires i < |ranges| && RangeFits(ranges[i]) && Nakking(start, w, ranges, i, 0, ns0) && |ns0| == processed
      modifies this`resendBuffer, this`abs, cc`ssThresh
      ensures HasNakked(start, w, ns) && |ns| == total
      ensures if stop then WireAll(ns) == Ranges.Processed(ranges) else Nakking(start, w, ranges, i + 1, 0, ns)
    {
      total, ns := processed, ns0;
      var count := Min(Ahead(ranges[i].hi, ranges[i].lo) + 1, DATAGRAM_MESSAGE_ID_ARRAY_LENGTH);
      var sq := ranges[i].lo;
      NextNumber(ranges[i], 0);
      for k := 0 to count
        invariant Nakking(start, w, ranges, i, k, ns) && |ns| == total && sq == NumberAt(ranges[i], k)
      {
        if total >= DATAGRAM_MESSAGE_ID_ARRAY_LENGTH {
          Ranges.TraverseFull(ranges, i, k, WireAll(ns));
          return total, true, ns;
        }
        total := total + 1;
        ghost var n;
        sq, n := NakStep(ranges, i, k, sq, start, w, ns);
        ns := ns + [n];
      }
      Ranges.TraverseRange(ranges, i, count, WireAll(ns));
      stop := false;
    }

    /** `_handle_nak`: records stay, messages become due. */
    method HandleNak(ranges: seq<Range>)
      requires Valid() && Narrow(abs, 0) && forall r <- ranges :: RangeFits(r)
      modifies this`resendBuffer, this`abs, cc`ssThresh
      ensures HasNakked(old(abs), old(cc.CurrentWindow()), NamedBy(old(abs), ranges))
    {
      ghost var ns: seq<int> := [];
      ghost var w := cc.CurrentWindow();
      var totalProcessed := 0;
      for i := 0 to |ranges|
        invariant Nakking(old(abs), w, ranges, i, 0, ns) && |ns| == totalProcessed
      {
        assert ranges[i] in ranges;
        var stop;
        totalProcessed, stop, ns := NakRange(ranges, i, totalProcessed, old(abs), w, ns);
        if stop {
          BehindsAll(old(abs), ranges, ns);
          return;
        }
      }
      Ranges.TraverseFull(ranges, |ranges|, 0, WireAll(ns));
      BehindsAll(old(abs), ranges, ns);
    }
  }

  /** The traversal's next number. */
  method NextOf(sq: int, ghost r: Range, ghost k: nat) returns (next: int)
    requires sq == NumberAt(r, k)
    ensures next == NumberAt(r, k + 1)
  {
    NextNumber(r, k);
    next := Wire(sq + 1);
  }

  lemma StepMore(ranges: seq<Range>, i: nat, k: nat, sq: int, start: Sender, ns: seq<int>)
    requires i < |ranges| && k < |Ranges.Span(ranges[i])| && |ns| < DATAGRAM_MESSAGE_ID_ARRAY_LENGTH
    requires Ranges.Traversed(ranges, i, k, WireAll(ns)) && sq == NumberAt(ranges[i], k) && Behinds(start.history, ns)
    ensures var n := Behind(start.history, sq);
      Ranges.Traversed(ranges, i, k + 1, WireAll(ns + [n])) && Behinds(start.history, ns + [n])
  {
    OneMore(ranges, i, k, ns, Behind(start.history, sq));
    BehindsMore(start.history, ns, Behind(start.history, sq));
  }

  lemma AllMore(s: Sender, ns: seq<int>, n: int)
    ensures AckAll(s, ns + [n]) == AckOne(AckAll(s, ns), n) && NakAll(s, ns + [n]) == NakOne(NakAll(s, ns), n)
  {
    assert (ns + [n])[..|ns|] == ns;
  }

  // ---------- what a packet names ----------

  /** Each number is the counter its wire form stands for in the history. */
  ghost predicate Behinds(history: map<int, Record>, ns: seq<int>) {
    forall i :: 0 <= i < |ns| ==> ns[i] == Behind(history, Wire(ns[i]))
  }

  lemma BehindsMore(history: map<int, Record>, ns: seq<int>, n: int)
    requires Behinds(history, ns) && n == Behind(history, Wire(n))
    ensures Behinds(history, ns + [n])
  {
  }

  /** The counters behind the wire numbers ws. */
  ghost function Resolved(history: map<int, Record>, ws: seq<int>): (ns: seq<int>)
    requires forall i :: 0 <= i < |ws| ==> 0 <= ws[i] < SEQ_MOD
    ensures |ns| == |ws| && forall i :: 0 <= i < |ws| ==> ns[i] == Behind(history, ws[i])
  {
    seq(|ws|, i requires 0 <= i < |ws| => Behind(history, ws[i]))
  }

  /** The numbers one packet acts on, as counters: the first 512 its ranges name. */
  ghost function NamedBy(s: Sender, ranges: seq<Range>): (ns: seq<int>)
    ensures WireAll(ns) == Ranges.Processed(ranges) && Behinds(s.history, ns)
  {
    Ranges.ProcessedOnWire(ranges);
    Resolved(s.history, Ranges.Processed(ranges))
  }

  lemma BehindsAll(s: Sender, ranges: seq<Range>, ns: seq<int>)
    requires Behinds(s.history, ns) && WireAll(ns) == Ranges.Processed(ranges)
    ensures ns == NamedBy(s, ranges)
  {
    forall i | 0 <= i < |ns|
      ensures ns[i] == NamedBy(s, ranges)[i]
    {
      assert WireAll(ns)[i] == WireAll(NamedBy(s, ranges))[i];
    }
  }

  /** The records a packet removes, whatever it names. */
  function NamedRecords(s: Sender, rs: seq<Range>): set<int> {
    set k | k in s.history && Wire(k) in Ranges.Processed(rs)
  }

  lemma NamedRecordsAre(s: Sender, rs: seq<Range>, k: int)
    requires Narrow(s, 0)
    ensures k in s.history && k in NamedBy(s, rs) <==> k in NamedRecords(s, rs)
  {
    var ns, ws := NamedBy(s, rs), Ranges.Processed(rs);
    if k in s.history && k in ns {
      var i :| 0 <= i < |ns| && ns[i] == k;
      assert WireAll(ns)[i] == Wire(k);
    }
    if k in NamedRecords(s, rs) {
      var i :| 0 <= i < |ws| && ws[i] == Wire(k);
      assert WireAll(ns)[i] == Wire(ns[i]);
      assert HasWire(s.history, Wire(k));
      WireInjective(ns[i], k);
    }
  }

  /** Exactly the records whose numbers are among the first 512 the packet names go. */
  lemma AckRemovesNamed(s: Sender, rs: seq<Range>)
    requires Narrow(s, 0)
    ensures AckAll(s, NamedBy(s, rs)).history == s.history - NamedRecords(s, rs)
  {
    var ns := NamedBy(s, rs);
    SenderBytes.AckRemovesExactly(s, ns);
    forall k | k in s.history
      ensures k in ElementSet(ns) <==> k in NamedRecords(s, rs)
    {
      NamedRecordsAre(s, rs, k);
    }
    assert s.history - ElementSet(ns) == s.history - NamedRecords(s, rs);
  }

  /** The packets a set of received numbers is reported in. */
  ghost function Reports(received: seq<Range>, mtu: int): seq<seq<Range>> {
    Ranges.Cut(received, [], mtu - UDP_HEADER_SIZE)
  }

  /** An ACK set survives the trip: the list of what has been received is cut
      into packets, each read by the sender as it was built; one that names at
      most 512 numbers removes exactly the records of the numbers it covers, a
      longer one only the first 512; and together they cover the whole set. */
  lemma AckTrip(s: Sender, received: seq<Range>, mtu: int, i: nat)
    requires Narrow(s, 0) && Ranges.Reportable(received)
    requires 38 <= mtu <= Ranges.MAX_RANGE_MTU && i < |Reports(received, mtu)|
    ensures Ranges.Concat(Reports(received, mtu)) == received
    ensures var rs := Reports(received, mtu)[i];
      Parse(DatagramBytes(Ack(false, rs))) == Some(Ack(false, rs))
      && var after := AckAll(s, NamedBy(s, rs)).history;
      (forall k <- s.history :: k !in after ==> Ranges.Covers(rs, Wire(k)))
      && (|Ranges.Named(rs)| <= DATAGRAM_MESSAGE_ID_ARRAY_LENGTH ==>
            forall k <- s.history :: k !in after <==> Ranges.Covers(rs, Wire(k)))
  {
    var rs := Reports(received, mtu)[i];
    Ranges.PacketsSurvive(mtu, received, true);
    Ranges.CutProper(received, mtu - UDP_HEADER_SIZE, rs);
    AckRemovesNamed(s, rs);
    forall k | k in s.history
      ensures Wire(k) in Ranges.Named(rs) <==> Ranges.Covers(rs, Wire(k))
      ensures Wire(k) in Ranges.Processed(rs) ==> Wire(k) in Ranges.Named(rs)
    {
      Ranges.NamedCovers(rs, Wire(k));
    }
  }

  /** An acknowledged counter is found on record as itself while the counters
      on record lie within a circle of it. */
  lemma AckMeans(s: Sender, n: int)
    requires forall k <- s.history :: -SEQ_MOD < k - n < SEQ_MOD
    ensures AckOne(s, Behind(s.history, Wire(n))) == AckOne(s, n)
  {
    var m := Behind(s.history, Wire(n));
    if n in s.history {
      assert HasWire(s.history, Wire(n));
    }
    if m in s.history {
      WireInjective(m, n);
    }
  }

  /** What later still has on record, start had. */
  ghost predicate Fewer(start: Sender, later: Sender) {
    Narrow(start, 0) && later.history.Keys <= start.history.Keys
  }

  lemma StillBehind(start: Sender, later: Sender, code: map<int, DatagramRecord>, sq: int)
    requires Fewer(start, later) && MapRep(code, later.history, StoredRecord) && 0 <= sq < SEQ_MOD
    ensures sq in code <==> Behind(start.history, sq) in later.history
  {
    var n := Behind(start.history, sq);
    if sq in code {
      assert HasWire(later.history, sq);
      var m :| m in later.history && Wire(m) == sq;
      assert m in start.history;
      WireInjective(m, n);
    }
  }

  /** What the controller is told about the numbers still on record. */
  ghost function AckEvents(s: Sender, ns: seq<int>): seq<Congestion.Event> {
    if ns == [] then []
    else
      var front, n := ns[..|ns| - 1], ns[|ns| - 1];
      AckEvents(s, front) + EventOf(AckAll(s, front), n)
  }

  /** What the controller hears of an acknowledged number: nothing if it has no record. */
  ghost function EventOf(s: Sender, n: int): seq<Congestion.Event> {
    if n in s.history then [Congestion.AckOf(Wire(n), s.history[n].continuous)] else []
  }

  ghost function SampleOf(s: Sender, n: int, now: real): seq<real> {
    if n in s.history then [now - s.history[n].sendTime] else []
  }

  ghost function AckSamples(s: Sender, ns: seq<int>, now: real): seq<real> {
    if ns == [] then []
    else
      var front, n := ns[..|ns| - 1], ns[|ns| - 1];
      AckSamples(s, front, now) + SampleOf(AckAll(s, front), n, now)
  }

  ghost function NakEvents(s: Sender, ns: seq<int>): seq<Congestion.Event> {
    if ns == [] then []
    else NakEvents(s, ns[..|ns| - 1]) + (if ns[|ns| - 1] in s.history then [Congestion.NakOf] else [])
  }

  /** The controller, from window w0 and round trip r0, has heard of the ACKs ns. */
  ghost predicate Heard(w: Congestion.Window, r: Congestion.Rtt, w0: Congestion.Window, r0: Congestion.Rtt,
                        start: Sender, ns: seq<int>, now: real) {
    Congestion.Sound(w0) && Congestion.Guarded(w0, AckEvents(start, ns)) && w == Congestion.Run(w0, AckEvents(start, ns))
    && r == Congestion.Samples(r0, AckSamples(start, ns, now))
  }

  lemma HeardMore(w: Congestion.Window, r: Congestion.Rtt, w0: Congestion.Window, r0: Congestion.Rtt,
                  start: Sender, ns: seq<int>, n: int, now: real)
    requires Heard(w, r, w0, r0, start, ns, now)
    ensures Congestion.Sound(w)
    ensures Heard(WindowAfter(w, AckAll(start, ns), n), RttAfter(r, AckAll(start, ns), n, now), w0, r0, start, ns + [n], now)
  {
    var s := AckAll(start, ns);
    AckEventsSnoc(start, ns, n, now);
    Congestion.RunSound(w0, AckEvents(start, ns));
    WindowHears(w0, AckEvents(start, ns), s, n);
    RttHears(r0, AckSamples(start, ns, now), s, n, now);
  }

  lemma AckEventsSnoc(start: Sender, ns: seq<int>, n: int, now: real)
    ensures AckEvents(start, ns + [n]) == AckEvents(start, ns) + EventOf(AckAll(start, ns), n)
    ensures AckSamples(start, ns + [n], now) == AckSamples(start, ns, now) + SampleOf(AckAll(start, ns), n, now)
  {
    assert (ns + [n])[..|ns|] == ns;
  }

  lemma WindowHears(w0: Congestion.Window, es: seq<Congestion.Event>, s: Sender, n: int)
    requires Congestion.Sound(w0) && Congestion.Guarded(w0, es) && Congestion.Sound(Congestion.Run(w0, es))
    ensures Congestion.Guarded(w0, es + EventOf(s, n))
    ensures Congestion.Run(w0, es + EventOf(s, n)) == WindowAfter(Congestion.Run(w0, es), s, n)
  {
    if n in s.history {
      Congestion.RunSnoc(w0, es, Congestion.AckOf(Wire(n), s.history[n].continuous));
    } else {
      assert es + [] == es;
    }
  }

  lemma RttHears(r0: Congestion.Rtt, rtts: seq<real>, s: Sender, n: int, now: real)
    ensures Congestion.Samples(r0, rtts + SampleOf(s, n, now)) == RttAfter(Congestion.Samples(r0, rtts), s, n, now)
  {
    if n in s.history {
      Congestion.SamplesSnoc(r0, rtts, now - s.history[n].sendTime);
    } else {
      assert rtts + [] == rtts;
    }
  }

  ghost predicate Warned(w: Congestion.Window, w0: Congestion.Window, start: Sender, ns: seq<int>) {
    Congestion.Sound(w0) && Congestion.Guarded(w0, NakEvents(start, ns)) && w == Congestion.Run(w0, NakEvents(start, ns))
  }

  lemma WarnedMore(w: Congestion.Window, w0: Congestion.Window, start: Sender, ns: seq<int>, n: int)
    requires Warned(w, w0, start, ns)
    ensures Warned(if n in start.history then Congestion.Nakked(w) else w, w0, start, ns + [n])
  {
    assert (ns + [n])[..|ns|] == ns;
    if n in start.history {
      Congestion.RunSnoc(w0, NakEvents(start, ns), Congestion.NakOf);
    } else {
      assert NakEvents(start, ns) + [] == NakEvents(start, ns);
    }
  }
  lemma OneMore(ranges: seq<Range>, i: nat, k: nat, ns: seq<int>, n: int)
    requires i < |ranges| && k < |Ranges.Span(ranges[i])| && |ns| < DATAGRAM_MESSAGE_ID_ARRAY_LENGTH
    requires Ranges.Traversed(ranges, i, k, WireAll(ns)) && Wire(n) == NumberAt(ranges[i], k)
    ensures Ranges.Traversed(ranges, i, k + 1, WireAll(ns + [n]))
  {
    Ranges.TraverseNext(ranges, i, k, WireAll(ns));
    WireMore(ns, n);
  }

  lemma WireMore(ns: seq<int>, n: int)
    ensures WireAll(ns + [n]) == WireAll(ns) + [Wire(n)]
  {
  }

  function NumberAt(r: Range, k: nat): int {
    Wire(r.lo + k)
  }

  lemma NextNumber(r: Range, k: nat)
    ensures Wire(NumberAt(r, k) + 1) == NumberAt(r, k + 1)
    ensures RangeFits(r) ==> NumberAt(r, 0) == r.lo
  {
    WireNext(r.lo + k);
  }

  /** The tracked frames named are due from the beginning of time. */
  function Hastened(resend: map<int, InFlight>, ns: seq<int>): map<int, InFlight> {
    map k | k in resend :: if k in ns then resend[k].(nextAction := 0.0) else resend[k]
  }

  lemma NoneHastened(resend: map<int, InFlight>, ns: seq<int>)
    ensures Hastened(resend, ns[..0]) == resend
  {
  }

  lemma HastenOne(resend: map<int, InFlight>, code: map<int, InFlightMessage>, ns: seq<int>, i: nat)
    requires i < |ns| && KeysApart(resend, ns) && MapRep(code, Hastened(resend, ns[..i]), StoredFlight)
    ensures var so := Hastened(resend, ns[..i]);
      (Wire(ns[i]) in code <==> ns[i] in so)
      && Hastened(resend, ns[..i + 1]) == if ns[i] in so then so[ns[i] := so[ns[i]].(nextAction := 0.0)] else so
  {
    var so := Hastened(resend, ns[..i]);
    assert ns[..i + 1] == ns[..i] + [ns[i]];
    assert forall k :: k in ns[..i + 1] <==> k in ns[..i] || k == ns[i];
    if Wire(ns[i]) in code {
      assert HasWire(so, Wire(ns[i]));
    }
  }

  /** The congestion window after number n is acknowledged. */
  function WindowAfter(w: Congestion.Window, s: Sender, n: int): Congestion.Window
    requires w.cwnd > 0.0 && w.mtu > 0
  {
    if n in s.history then Congestion.Acked(w, Wire(n), s.history[n].continuous) else w
  }

  function RttAfter(r: Congestion.Rtt, s: Sender, n: int, now: real): Congestion.Rtt {
    if n in s.history then Congestion.Sample(r, now - s.history[n].sendTime) else r
  }

  predicate KeysApart(resend: map<int, InFlight>, ns: seq<int>) {
    forall k <- resend, i | 0 <= i < |ns| :: Wire(k) == Wire(ns[i]) ==> k == ns[i]
  }

  lemma ApartFromRecord(s: Sender, n: int)
    requires Narrow(s, 0) && n in s.history
    ensures KeysApart(s.resend, s.history[n].numbers)
  {
    var ns := s.history[n].numbers;
    forall k, i | k in s.resend && 0 <= i < |ns| && Wire(k) == Wire(ns[i])
      ensures k == ns[i]
    {
      WireInjective(k, ns[i]);
    }
  }

  lemma NoneForgotten(resend: map<int, InFlight>, ns: seq<int>)
    ensures resend - ElementSet(ns[..0]) == resend
  {
  }

  lemma ForgetOne(resend: map<int, InFlight>, code: map<int, InFlightMessage>, ns: seq<int>, i: nat)
    requires i < |ns| && KeysApart(resend, ns) && MapRep(code, resend - ElementSet(ns[..i]), StoredFlight)
    ensures var left := resend - ElementSet(ns[..i]);
      (Wire(ns[i]) in code <==> ns[i] in left) && resend - ElementSet(ns[..i + 1]) == left - {ns[i]}
    ensures Wire(ns[i]) !in code ==> resend - ElementSet(ns[..i + 1]) == resend - ElementSet(ns[..i])
  {
    var left := resend - ElementSet(ns[..i]);
    assert ns[..i + 1] == ns[..i] + [ns[i]];
    assert ElementSet(ns[..i + 1]) == ElementSet(ns[..i]) + {ns[i]};
    if Wire(ns[i]) in code {
      assert HasWire(left, Wire(ns[i]));
    }
  }

  /** What a tick needs: the numbers in use leave room for every frame it may send. */
  ghost predicate CanTick(s: Sender) {
    Proper(s) && Narrow(s, |s.resend| + |s.queue|)
  }

  /** Tracked frames carry their own number, queued ones none yet: what every
      run of the sender keeps (SenderReach.OkIsProper). */
  ghost predicate Proper(s: Sender) {
    (forall n <- s.resend :: s.resend[n].t.f.reliableNumber == n && 0 <= n)
    && (forall e <- s.queue :: e.t.f.reliability.IsReliable() ==> NeedsNumber(e.t))
  }

  lemma {:induction false} DueAt(resend: map<int, InFlight>, order: seq<int>, i: nat)
    requires (forall k :: 0 <= k < |order| ==> order[k] in resend) && i < |order|
    ensures DueFrames(resend, order)[i] == resend[order[i]].t
  {
    if i > 0 {
      DueAt(resend, order[1..], i - 1);
    }
  }

  lemma {:induction false} FewDue(order: seq<int>, keys: set<int>)
    requires (forall i :: 0 <= i < |order| ==> order[i] in keys) && forall i, j :: 0 <= i < j < |order| ==> order[i] != order[j]
    ensures |order| <= |keys|
    decreases |order|
  {
    if order != [] {
      var n := order[0];
      FewDue(order[1..], keys - {n});
    }
  }

  lemma DueReach(s: Sender, now: real, timeout: real, order: seq<int>, slack: nat)
    requires Proper(s) && Narrow(s, |s.resend| + slack) && DueOrder(s, now, order)
    ensures InReach(EvictStale(s, now, timeout), DueFrames(s.resend, order), slack)
  {
    FewDue(order, s.resend.Keys);
    assert |s.resend| == |s.resend.Keys|;
    var ts := DueFrames(s.resend, order);
    forall i | 0 <= i < |ts|
      ensures ts[i].f.reliableNumber == order[i] && order[i] in s.resend
    {
      DueAt(s.resend, order, i);
      var n := order[i];
      assert n in s.resend;
    }
    forall i | 0 <= i < |ts|
      ensures s.nextReliable + |ts| + slack - SEQ_MOD <= ts[i].f.reliableNumber < s.nextReliable && 0 <= ts[i].f.reliableNumber
    {
      var n := order[i];
      assert n in s.resend;
    }
  }

  lemma FramesHead(queue: seq<Queued>)
    requires queue != []
    ensures StoredAll(Frames(queue)) == StoredAll([queue[0].t]) + StoredAll(Frames(queue[1..]))
    ensures StoredAll([queue[0].t]) == [StoredQueue(queue)[0].frame]
    ensures StoredQueue(queue)[1..] == StoredQueue(queue[1..])
  {
    StoredCons(queue[0].t, Frames(queue[1..]));
    StoredTail(queue);
  }

  lemma StoredCons(t: TFrame, ts: seq<TFrame>)
    ensures StoredAll([t] + ts) == StoredAll([t]) + StoredAll(ts) && StoredAll([t]) == [Stored(t.f)]
  {
  }

  lemma StoredTail(queue: seq<Queued>)
    requires queue != []
    ensures StoredQueue(queue)[1..] == StoredQueue(queue[1..]) && StoredQueue(queue)[0].frame == Stored(queue[0].t.f)
  {
  }

  lemma {:induction false} QueueFresh(queue: seq<Queued>)
    requires forall e <- queue :: e.t.f.reliability.IsReliable() ==> NeedsNumber(e.t)
    ensures forall i :: 0 <= i < |Frames(queue)| && Frames(queue)[i].f.reliability.IsReliable() ==> NeedsNumber(Frames(queue)[i])
  {
    if queue != [] {
      assert queue[0] in queue && forall e <- queue[1..] :: e in queue;
      QueueFresh(queue[1..]);
    }
  }

  lemma QueueReach(s: Sender, p: Packing, c: Pass, olds: seq<int>, slack: nat)
    requires Proper(s) && Turns(p, c, olds) && p.s.queue == s.queue && InReach(p.s, p.rest, |p.s.queue| + slack)
    ensures var s' := Packed(p, c, olds).s;
      s'.queue == s.queue && InReach(s', Frames(s'.queue), slack)
  {
    PassInReach(p, c, olds, |p.s.queue| + slack);
    SenderQueue.PassMoves(p, c, olds);
    QueueFresh(s.queue);
  }

  lemma EncodesConcat(a: seq<Bytes>, ps: seq<Packet>, b: seq<Bytes>, qs: seq<Packet>)
    requires Encodes(a, ps) && Encodes(b, qs)
    ensures Encodes(a + b, ps + qs)
  {
    MappedConcat(SenderBytes.Encoded, ps, a, qs, b);
  }

  function Dropped(s: Sender, n: int): Sender
    requires n in s.history
  {
    s.(history := s.history - {n}, unacked := s.unacked - s.history[n].byteSize)
  }

  /** Dropping one stale record leaves the rest of the eviction to do. */
  lemma DropStale(s: Sender, n: int, now: real, timeout: real)
    requires n in s.history && now - s.history[n].sendTime > timeout
    ensures EvictStale(Dropped(s, n), now, timeout) == EvictStale(s, now, timeout)
  {
    var stale, less := Stale(s.history, now, timeout), Stale(s.history - {n}, now, timeout);
    assert less == stale - {n};
    SenderBytes.TotalRemove(stale, n);
    assert s.history - {n} - less.Keys == s.history - stale.Keys;
  }

  lemma NothingStale(s: Sender, code: map<int, DatagramRecord>, now: real, timeout: real)
    requires MapRep(code, s.history, StoredRecord)
    requires forall w <- code :: now - code[w].sendTime <= timeout
    ensures EvictStale(s, now, timeout) == s
  {
    var stale := Stale(s.history, now, timeout);
    forall n | n in s.history
      ensures n !in stale
    {
      assert code[Wire(n)] == StoredRecord(s.history[n]);
    }
    assert stale.Keys == {};
    assert s.history - stale.Keys == s.history;
  }

  /** order lists the due frames outside todo. */
  ghost predicate DueSoFar(resend: map<int, InFlight>, now: real, order: seq<int>, todo: set<int>) {
    (forall i, j :: 0 <= i < j < |order| ==> order[i] != order[j])
    && (forall i :: 0 <= i < |order| ==>
          order[i] in resend && now >= resend[order[i]].nextAction && Wire(order[i]) !in todo)
    && (forall n :: n in resend && now >= resend[n].nextAction && Wire(n) !in todo ==> n in order)
  }

  lemma DueStep(resend: map<int, InFlight>, now: real, order: seq<int>, todo: set<int>, n: int)
    requires DueSoFar(resend, now, order, todo) && n in resend && Wire(n) in todo
    requires forall m :: m in resend && Wire(m) == Wire(n) ==> m == n
    ensures DueSoFar(resend, now, if now >= resend[n].nextAction then order + [n] else order, todo - {Wire(n)})
  {
    if now >= resend[n].nextAction {
      assert (order + [n])[|order|] == n;
      forall m | m in resend && now >= resend[m].nextAction && Wire(m) !in todo - {Wire(n)}
        ensures m in order + [n]
      {
        assert m == n || m in order;
      }
    }
  }

  lemma {:induction false} DueSnoc(resend: map<int, InFlight>, order: seq<int>, n: int)
    requires (forall i :: 0 <= i < |order| ==> order[i] in resend) && n in resend
    ensures DueFrames(resend, order + [n]) == DueFrames(resend, order) + [resend[n].t]
    decreases |order|
  {
    if order == [] {
      assert [] + [n] == [n] && [n][1..] == [];
    } else {
      assert (order + [n])[1..] == order[1..] + [n];
      DueSnoc(resend, order[1..], n);
    }
  }

  lemma IsTick(s: Sender, a: Action, mtu: int, p: Packing, c: Pass, d: Pass, s': Sender, outgoing: seq<Bytes>)
    requires Shaped(s) && a.Tick? && DueOrder(s, a.now, a.order) && p == Resending(s, a) && c == ResendPass(a, mtu)
    requires Passes(p, c, a.olds) && d == NewPass(a, mtu) && Passes(Drained(Packed(p, c, a.olds).s), d, a.newOlds)
    requires s' == Finish(Packed(Drained(Packed(p, c, a.olds).s), d, a.newOlds), d)
    requires Encodes(outgoing, Packed(p, c, a.olds).out + Packed(Drained(Packed(p, c, a.olds).s), d, a.newOlds).out)
    ensures Ticked(s, a, mtu, s', outgoing)
  {
  }

  /** The tick a takes s to s' and sends the bytes of its datagrams. */
  ghost predicate Ticked(s: Sender, a: Action, mtu: int, s': Sender, outgoing: seq<Bytes>) {
    Shaped(s) && a.Tick? && Enabled(s, a, mtu) && s' == Act(s, a, mtu) && Encodes(outgoing, Emitted(s, a, mtu))
  }

  /** The bytes sent are those of the datagrams, in order. */
  ghost predicate Encodes(outgoing: seq<Bytes>, out: seq<Packet>) {
    Mapped(SenderBytes.Encoded, out, outgoing)
  }

  /** ys are the images of xs. */
  ghost predicate Mapped<A, B>(f: A -> B, xs: seq<A>, ys: seq<B>) {
    |ys| == |xs| && forall i :: 0 <= i < |xs| ==> ys[i] == f(xs[i])
  }

  lemma MappedConcat<A, B>(f: A -> B, xs: seq<A>, ys: seq<B>, xs': seq<A>, ys': seq<B>)
    requires Mapped(f, xs, ys) && Mapped(f, xs', ys')
    ensures Mapped(f, xs + xs', ys + ys')
  {
  }

  lemma EncodesSnoc(outgoing: seq<Bytes>, out: seq<Packet>, raw: Bytes, p: Packet)
    requires Encodes(outgoing, out) && raw == SenderBytes.Encoded(p)
    ensures Encodes(outgoing + [raw], out + [p])
  {
    MappedConcat(SenderBytes.Encoded, out, outgoing, [p], [raw]);
  }

  lemma MoreTurns(p: Packing, c: Pass, olds: seq<int>, oldest: int)
    requires Turns(p, c, olds) && Going(Packed(p, c, olds), c) && OldestOk(Packed(p, c, olds).s.history, oldest)
    ensures Turns(p, c, olds + [oldest]) && Packed(p, c, olds + [oldest]) == PackOne(Packed(p, c, olds), c, oldest)
  {
    assert (olds + [oldest])[..|olds|] == olds;
  }

  /** Numbers already given to ts, keys and records lie within one circle of
      what ts can still consume. */
  ghost predicate InReach(s: Sender, ts: seq<TFrame>, slack: nat) {
    Narrow(s, |ts| + slack)
    && forall i :: 0 <= i < |ts| && ts[i].f.reliability.IsReliable() && !NeedsNumber(ts[i]) ==>
         0 <= ts[i].f.reliableNumber && s.nextReliable + |ts| + slack - SEQ_MOD <= ts[i].f.reliableNumber < s.nextReliable
  }

  lemma {:induction false} NumberedWithin(ts: seq<TFrame>, next: nat, lo: int, i: nat)
    requires i < |ts| && lo <= next && ts[i].f.reliability.IsReliable()
    requires !NeedsNumber(ts[i]) ==> 0 <= ts[i].f.reliableNumber && lo <= ts[i].f.reliableNumber < next
    ensures 0 <= Number(ts, next)[i].f.reliableNumber
    ensures lo <= Number(ts, next)[i].f.reliableNumber < next + |Newly(ts)|
    decreases |ts|
  {
    if i > 0 {
      NumberedWithin(ts[1..], if NeedsNumber(ts[0]) then next + 1 else next, lo, i - 1);
    }
  }

  lemma {:induction false} NumberKind(ts: seq<TFrame>, next: nat, i: nat)
    requires i < |ts|
    ensures Number(ts, next)[i].f.reliability == ts[i].f.reliability
    decreases |ts|
  {
    if i > 0 {
      NumberKind(ts[1..], if NeedsNumber(ts[0]) then next + 1 else next, i - 1);
    }
  }

  lemma ReachApart(s: Sender, ts: seq<TFrame>, k: nat, slack: nat)
    requires InReach(s, ts, slack) && k <= |ts|
    ensures Apart(s.resend, Number(ts[..k], s.nextReliable))
  {
    var lo := s.nextReliable + |ts| + slack - SEQ_MOD;
    var frames := Number(ts[..k], s.nextReliable);
    NewlyFew(ts[..k]);
    forall i | 0 <= i < |frames| && frames[i].f.reliability.IsReliable()
      ensures 0 <= frames[i].f.reliableNumber && lo <= frames[i].f.reliableNumber < lo + SEQ_MOD
    {
      NumberKind(ts[..k], s.nextReliable, i);
      assert ts[..k][i] == ts[i];
      NumberedWithin(ts[..k], s.nextReliable, lo, i);
    }
    assert Within(s.resend, frames, lo);
  }

  lemma ReachFree(s: Sender, code: map<int, DatagramRecord>, ts: seq<TFrame>, slack: nat)
    requires InReach(s, ts, slack) && ts != [] && MapRep(code, s.history, StoredRecord)
    ensures Wire(s.sent) !in code
  {
    if Wire(s.sent) in code {
      assert HasWire(s.history, Wire(s.sent));
      var k :| k in s.history && Wire(k) == Wire(s.sent);
      WireInjective(s.sent, k);
    }
  }

  lemma {:induction false} OwnNumbers(ts: seq<TFrame>, i: nat)
    requires i < |ReliableNumbers(ts)|
    ensures HasOwn(ts, ReliableNumbers(ts)[i])
  {
    var skip := if ts[0].f.reliability.IsReliable() then 1 else 0;
    if i < skip {
      assert ts[0].f.reliableNumber == ReliableNumbers(ts)[i];
    } else {
      OwnNumbers(ts[1..], i - skip);
      var j :| 0 <= j < |ts[1..]| && ts[1..][j].f.reliability.IsReliable()
               && ts[1..][j].f.reliableNumber == ReliableNumbers(ts[1..])[i - skip];
      assert ts[j + 1] == ts[1..][j];
    }
  }

  /** The numbers of a datagram lie between those in reach and the next free one. */
  lemma NumbersInReach(s: Sender, ts: seq<TFrame>, k: nat, slack: nat)
    requires InReach(s, ts, slack) && k <= |ts|
    ensures forall n :: HasOwn(Number(ts[..k], s.nextReliable), n) ==>
      s.nextReliable + |ts| + slack - SEQ_MOD <= n < s.nextReliable + |Newly(ts[..k])|
  {
    var frames := Number(ts[..k], s.nextReliable);
    var lo := s.nextReliable + |ts| + slack - SEQ_MOD;
    forall n | HasOwn(frames, n)
      ensures lo <= n < s.nextReliable + |Newly(ts[..k])|
    {
      var i :| 0 <= i < |frames| && frames[i].f.reliability.IsReliable() && frames[i].f.reliableNumber == n;
      NumberKind(ts[..k], s.nextReliable, i);
      assert ts[..k][i] == ts[i];
      NumberedWithin(ts[..k], s.nextReliable, lo, i);
    }
  }

  lemma ReachNarrow(s: Sender, ts: seq<TFrame>, k: nat, more: bool, now: real, rto: real, oldest: int, slack: nat)
    requires InReach(s, ts, slack) && 0 < k <= |ts|
    ensures Narrow(Emit(s, ts[..k], more, now, rto, oldest).0, |ts| - k + slack)
  {
    var s' := Emit(s, ts[..k], more, now, rto, oldest).0;
    var frames := Number(ts[..k], s.nextReliable);
    NewlyFew(ts[..k]);
    NumbersInReach(s, ts, k, slack);
    TrackedKeys(s.resend, frames, now, rto);
    forall h, i | h in s'.history && 0 <= i < |s'.history[h].numbers|
      ensures s'.nextReliable + (|ts| - k) + slack - SEQ_MOD <= s'.history[h].numbers[i] < s'.nextReliable
    {
      if h == s.sent {
        OwnNumbers(frames, i);
      }
    }
  }

  /** What has been packed leaves the rest in reach. */
  lemma ReachNext(s: Sender, ts: seq<TFrame>, k: nat, more: bool, now: real, rto: real, oldest: int, slack: nat)
    requires InReach(s, ts, slack) && 0 < k <= |ts|
    ensures InReach(Emit(s, ts[..k], more, now, rto, oldest).0, ts[k..], slack)
  {
    ReachNarrow(s, ts, k, more, now, rto, oldest, slack);
    NewlyFew(ts[..k]);
  }

  /** After a pass there is still the slack there was. */
  lemma {:induction false} PassInReach(p: Packing, c: Pass, olds: seq<int>, slack: nat)
    requires Turns(p, c, olds) && InReach(p.s, p.rest, slack)
    ensures InReach(Packed(p, c, olds).s, Packed(p, c, olds).rest, slack)
    decreases |olds|
  {
    if olds != [] {
      PassInReach(p, c, olds[..|olds| - 1], slack);
      var q := Packed(p, c, olds[..|olds| - 1]);
      var k := Fill(q.rest, c.max, 0);
      ReachNext(q.s, q.rest, k, k < |q.rest|, c.now, c.rto, olds[|olds| - 1], slack);
    }
  }

  lemma {:induction false} NewlyFew(ts: seq<TFrame>)
    ensures |Newly(ts)| <= |ts|
  {
    if ts != [] {
      NewlyFew(ts[1..]);
    }
  }

  /** The datagram that leaves next with the frames of ts. */
  function NextPacket(s: Sender, ts: seq<TFrame>, more: bool): Packet {
    Packet(s.sent, Number(ts, s.nextReliable), more || s.queue != [])
  }

  /** The pieces of the next datagram, as the code holds them. */
  ghost predicate Prepared(s: Sender, ts: seq<TFrame>, more: bool, sq: int, numbered: seq<MessageFrame>,
                           reliableNums: seq<int>, isContinuous: bool, size: nat) {
    sq == Wire(s.sent) && numbered == WireFrames(Number(ts, s.nextReliable))
    && reliableNums == WireAll(ReliableNumbers(Number(ts, s.nextReliable)))
    && isContinuous == (more || s.queue != []) && size == 4 + FramesSize(ts)
  }

  /** The next reliable number after ts, and its wire form. */
  function NumberAfter(next: nat, ts: seq<TFrame>): nat {
    next + |Newly(ts)|
  }

  function WireAfter(next: nat, ts: seq<TFrame>): int {
    Wire(NumberAfter(next, ts))
  }

  /** The frames of ts as they leave, and the reliable numbers among them. */
  predicate NumberedAs(frames: seq<MessageFrame>, nums: seq<int>, ts: seq<TFrame>, next: nat) {
    frames == WireFrames(Number(ts, next)) && nums == WireAll(ReliableNumbers(Number(ts, next)))
  }

  lemma NumberedNone(ts: seq<TFrame>, next: nat)
    ensures NumberedAs([], [], ts[..0], next) && WireAfter(next, ts[..0]) == Wire(next)
  {
    assert ts[..0] == [];
  }

  lemma NumberedSnoc(frames: seq<MessageFrame>, nums: seq<int>, ts: seq<TFrame>, t: TFrame, next: nat)
    requires NumberedAs(frames, nums, ts, next)
    ensures var u := NumberOne(t, NumberAfter(next, ts));
      NumberedAs(frames + [WireFrame(u.f)],
                 if u.f.reliability.IsReliable() then nums + [WireFrame(u.f).reliableNumber] else nums, ts + [t], next)
    ensures NumberAfter(next, ts + [t]) == NumberAfter(next, ts) + (if NeedsNumber(t) then 1 else 0)
  {
    NumberSnoc(ts, t, next);
    NewlySnoc(ts, t);
    AppendNumbered(Number(ts, next), NumberOne(t, NumberAfter(next, ts)));
  }

  lemma EmitOthers(s: Sender, ts: seq<TFrame>, more: bool, now: real, rto: real, oldest: int)
    ensures var s' := Emit(s, ts, more, now, rto, oldest).0;
      SenderQueue.SameQueue(s, s') && s'.sent == s.sent + 1 && Wire(s'.nextReliable) == WireAfter(s.nextReliable, ts)
  {
  }

  lemma PackOneFields(p: Packing, c: Pass, ts: seq<TFrame>, idx: nat, next: nat, oldest: int)
    requires Going(p, c) && idx < next <= |ts| && p.rest == ts[idx..] && next - idx == Fill(p.rest, c.max, 0)
    ensures var (s, packet) := Emit(p.s, ts[idx..next], next < |ts|, c.now, c.rto, oldest);
      PackOne(p, c, oldest) == Packing(if c.limit.Some? then s.(emitted := s.emitted + Fids(ts[idx..next])) else s,
                                       ts[next..], p.out + [packet])
      && packet == NextPacket(p.s, ts[idx..next], next < |ts|)
  {
    var k := next - idx;
    assert ts[idx..next] == p.rest[..k] && ts[next..] == p.rest[k..];
  }

  /** The numbers of ts and of the tracked frames keep apart on the wire. */
  ghost predicate Apart(resend: map<int, InFlight>, ts: seq<TFrame>) {
    exists lo :: Within(resend, ts, lo)
  }

  predicate Within(resend: map<int, InFlight>, ts: seq<TFrame>, lo: int) {
    (forall n <- resend :: lo <= n < lo + SEQ_MOD)
    && forall i :: 0 <= i < |ts| && ts[i].f.reliability.IsReliable() ==> 
         0 <= ts[i].f.reliableNumber && lo <= ts[i].f.reliableNumber < lo + SEQ_MOD
  }

  lemma ApartAt(resend: map<int, InFlight>, ts: seq<TFrame>, i: nat, tracked: map<int, InFlight>)
    requires Apart(resend, ts) && i < |ts| && ts[i].f.reliability.IsReliable()
    requires forall n <- tracked :: n in resend || HasOwn(ts[..i], n)
    ensures !NeedsNumber(ts[i])
    ensures forall n <- tracked :: Wire(n) == Wire(ts[i].f.reliableNumber) ==> n == ts[i].f.reliableNumber
  {
    var lo :| Within(resend, ts, lo);
    forall n | n in tracked && Wire(n) == Wire(ts[i].f.reliableNumber)
      ensures n == ts[i].f.reliableNumber
    {
      if n !in resend {
        var j :| 0 <= j < i && ts[..i][j].f.reliability.IsReliable() && ts[..i][j].f.reliableNumber == n;
        assert ts[..i][j] == ts[j];
      }
      WireInjective(n, ts[i].f.reliableNumber);
    }
  }

  ghost predicate HasOwn(ts: seq<TFrame>, n: int) {
    exists j :: 0 <= j < |ts| && ts[j].f.reliability.IsReliable() && ts[j].f.reliableNumber == n
  }

  lemma {:induction false} TrackSnoc(resend: map<int, InFlight>, ts: seq<TFrame>, t: TFrame, now: real, rto: real)
    ensures Track(resend, ts + [t], now, rto) == TrackOne(Track(resend, ts, now, rto), t, now, rto)
    decreases |ts|
  {
    if ts == [] {
      assert [] + [t] == [t] && [t][1..] == [];
    } else {
      assert (ts + [t])[1..] == ts[1..] + [t];
      TrackSnoc(TrackOne(resend, ts[0], now, rto), ts[1..], t, now, rto);
    }
  }

  lemma {:induction false} TrackedKeys(resend: map<int, InFlight>, ts: seq<TFrame>, now: real, rto: real)
    ensures forall n <- Track(resend, ts, now, rto) :: n in resend || HasOwn(ts, n)
    decreases |ts|
  {
    if ts != [] {
      var one := TrackOne(resend, ts[0], now, rto);
      TrackedKeys(one, ts[1..], now, rto);
      forall n | n in Track(resend, ts, now, rto)
        ensures n in resend || HasOwn(ts, n)
      {
        if n !in one {
          var j :| 0 <= j < |ts[1..]| && ts[1..][j].f.reliability.IsReliable() && ts[1..][j].f.reliableNumber == n;
          assert ts[j + 1] == ts[1..][j];
        } else if n !in resend {
          assert ts[0].f.reliability.IsReliable() && ts[0].f.reliableNumber == n;
        }
      }
    }
  }

  lemma {:induction false} OldestSeqExists(h: map<int, DatagramRecord>, ks: set<int>)
    requires ks != {} && ks <= h.Keys
    ensures exists k <- ks :: forall j <- ks :: h[k].sendTime <= h[j].sendTime
    decreases |ks|
  {
    var x := Pick(ks);
    if ks == {x} {
      assert forall j <- ks :: h[x].sendTime <= h[j].sendTime;
    } else {
      OldestSeqExists(h, ks - {x});
      var k :| k in ks - {x} && forall j <- ks - {x} :: h[k].sendTime <= h[j].sendTime;
      var best := if h[x].sendTime <= h[k].sendTime then x else k;
      assert forall j <- ks :: h[best].sendTime <= h[j].sendTime;
    }
  }

  /** `min(..., key=send_time)`. */
  method OldestSeq(h: map<int, DatagramRecord>) returns (k: int)
    requires h != map[]
    ensures k in h && forall j <- h :: h[k].sendTime <= h[j].sendTime
  {
    OldestSeqExists(h, h.Keys);
    k :| k in h && forall j <- h.Keys :: h[k].sendTime <= h[j].sendTime;
  }

  function NumberOne(t: TFrame, next: nat): TFrame {
    if NeedsNumber(t) then t.(f := t.f.(reliableNumber := next)) else t
  }

  /** Frame i joins a datagram of the given size, or closes it. */
  lemma FillNext(ts: seq<TFrame>, i: nat, max: int, size: nat)
    requires i < |ts| && size < max
    ensures Fill(ts[i..], max, size)
            == if size > 0 && size + FrameSize(Stored(ts[i].f)) > max then 0
               else 1 + Fill(ts[i + 1..], max, size + FrameSize(Stored(ts[i].f)))
  {
    assert ts[i..][0] == ts[i] && ts[i..][1..] == ts[i + 1..];
  }

  lemma {:induction false} NewlySnoc(ts: seq<TFrame>, t: TFrame)
    ensures Newly(ts + [t]) == Newly(ts) + (if NeedsNumber(t) then [t.fid] else [])
  {
    if ts == [] {
      assert ts + [t] == [t] + ts;
      NewlyHead(t, ts);
    } else {
      var head, tail := ts[0], ts[1..];
      assert ts == [head] + tail && ts + [t] == [head] + (tail + [t]);
      NewlyHead(head, tail);
      NewlyHead(head, tail + [t]);
      NewlySnoc(tail, t);
    }
  }

  lemma NewlyHead(t: TFrame, ts: seq<TFrame>)
    ensures Newly([t] + ts) == (if NeedsNumber(t) then [t.fid] else []) + Newly(ts)
  {
    assert ([t] + ts)[1..] == ts;
  }

  lemma NumberHead(t: TFrame, ts: seq<TFrame>, next: nat)
    ensures Number([t] + ts, next) == [NumberOne(t, next)] + Number(ts, if NeedsNumber(t) then next + 1 else next)
    ensures |Newly([t] + ts)| == (if NeedsNumber(t) then 1 else 0) + |Newly(ts)|
  {
    assert ([t] + ts)[1..] == ts;
  }

  lemma {:induction false} NumberSnoc(ts: seq<TFrame>, t: TFrame, next: nat)
    ensures Number(ts + [t], next) == Number(ts, next) + [NumberOne(t, next + |Newly(ts)|)]
    decreases |ts|
  {
    if ts == [] {
      NumberHead(t, [], next);
      assert [] + [t] == [t] + [];
    } else {
      var head, tail := ts[0], ts[1..];
      assert ts == [head] + tail && ts + [t] == [head] + (tail + [t]);
      NumberHead(head, tail, next);
      NumberHead(head, tail + [t], next);
      NumberSnoc(tail, t, if NeedsNumber(head) then next + 1 else next);
    }
  }

  lemma {:induction false} AppendNumbered(ts: seq<TFrame>, t: TFrame)
    ensures WireFrames(ts + [t]) == WireFrames(ts) + [WireFrame(t.f)]
    ensures WireAll(ReliableNumbers(ts + [t]))
            == WireAll(ReliableNumbers(ts)) + (if t.f.reliability.IsReliable() then [Wire(t.f.reliableNumber)] else [])
  {
    AppendFrames(ts, t);
    AppendReliable(ts, t);
  }

  lemma {:induction false} AppendFrames(ts: seq<TFrame>, t: TFrame)
    ensures WireFrames(ts + [t]) == WireFrames(ts) + [WireFrame(t.f)]
  {
    if ts == [] {
      assert [] + [t] == [t] && [t][1..] == [];
    } else {
      assert (ts + [t])[1..] == ts[1..] + [t];
      AppendFrames(ts[1..], t);
    }
  }

  lemma {:induction false} AppendReliable(ts: seq<TFrame>, t: TFrame)
    ensures ReliableNumbers(ts + [t]) == ReliableNumbers(ts) + (if t.f.reliability.IsReliable() then [t.f.reliableNumber] else [])
  {
    if ts == [] {
      assert ts + [t] == [t] + ts;
      ReliableHead(t, ts);
    } else {
      var head, tail := ts[0], ts[1..];
      assert ts == [head] + tail && ts + [t] == [head] + (tail + [t]);
      ReliableHead(head, tail);
      ReliableHead(head, tail + [t]);
      AppendReliable(tail, t);
    }
  }

  lemma ReliableHead(t: TFrame, ts: seq<TFrame>)
    ensures ReliableNumbers([t] + ts)
            == (if t.f.reliability.IsReliable() then [t.f.reliableNumber] else []) + ReliableNumbers(ts)
  {
    assert ([t] + ts)[1..] == ts;
  }
}
