/** What the sender counts: bytes in flight, datagram sizes, the congestion
    budget (_reliability.py:379-393, 418-496, 502-521, 884-919). */
module SenderBytes {
  import opened Types
  import opened SeqNum
  import opened BitSpec
  import opened WireFormat
  import opened Tags
  import opened SenderSpec
  import Congestion
  import SenderQueue
  import Splitting

  // ---------- the bytes of the history ----------

  lemma {:induction false} TotalRemove(h: map<int, Record>, n: int)
    requires n in h
    ensures Total(h) == h[n].byteSize + Total(h - {n})
    decreases |h|
  {
    var k := Any(h.Keys);
    assert |h| == |h.Keys| && |h - {k}| == |(h - {k}).Keys|;
    if k != n {
      TotalRemove(h - {k}, n);
      assert |h - {n}| == |(h - {n}).Keys| && |h.Keys - {n}| < |h.Keys|;
      TotalRemove(h - {n}, k);
      assert h - {k} - {n} == h - {n} - {k};
    }
  }

  lemma TotalInsert(h: map<int, Record>, n: int, r: Record)
    ensures Total(h[n := r]) + SizeAt(h, n) == Total(h) + r.byteSize
  {
    TotalRemove(h[n := r], n);
    if n in h {
      TotalRemove(h, n);
      assert h[n := r] - {n} == h - {n};
    } else {
      assert h[n := r] - {n} == h;
    }
  }

  predicate PartOf(part: map<int, Record>, h: map<int, Record>) {
    part.Keys <= h.Keys && forall n <- part :: part[n] == h[n]
  }

  lemma Peel(h: map<int, Record>, part: map<int, Record>, k: int)
    requires PartOf(part, h) && k in part
    ensures PartOf(part - {k}, h - {k}) && h[k] == part[k]
    ensures h - {k} - (part - {k}).Keys == h - part.Keys
    ensures |part - {k}| < |part|
  {
    assert |part| == |part.Keys| && |part - {k}| == |(part - {k}).Keys|;
    assert (part - {k}).Keys == part.Keys - {k};
  }

  lemma {:induction false} TotalSplit(h: map<int, Record>, part: map<int, Record>)
    requires PartOf(part, h)
    ensures Total(h) == Total(part) + Total(h - part.Keys)
    decreases |part|
  {
    if part.Keys == {} {
      assert h - part.Keys == h;
    } else {
      var k := Any(part.Keys);
      Peel(h, part, k);
      TotalRemove(h, k);
      TotalRemove(part, k);
      TotalSplit(h - {k}, part - {k});
    }
  }

  /** The code's bookkeeping when a record goes in: it stays exact if and only
      if the number is not still a key. */
  lemma InsertConserves(h: map<int, Record>, unacked: int, n: int, r: Record, oldest: int)
    requires unacked == Total(h) && OldestOk(h, oldest)
    requires forall k <- h :: h[k].byteSize > 0
    ensures unacked - Freed(h, oldest) + r.byteSize == Total(Room(h, oldest)[n := r]) <==> n !in Room(h, oldest)
  {
    if |h| >= MAX_DATAGRAM_HISTORY_SIZE {
      TotalRemove(h, oldest);
    }
    TotalInsert(Room(h, oldest), n, r);
  }

  /** The bytes counted as in flight are those of the records kept, at most 4096 of them. */
  ghost predicate BytesInv(s: Sender) {
    s.unacked == Total(s.history) && |s.history| <= MAX_DATAGRAM_HISTORY_SIZE
    && forall n <- s.history :: n < s.sent && s.history[n].byteSize > 0
  }

  lemma RoomSize(h: map<int, Record>, oldest: int, n: int, r: Record)
    requires |h| <= MAX_DATAGRAM_HISTORY_SIZE && OldestOk(h, oldest)
    ensures |Room(h, oldest)[n := r]| <= MAX_DATAGRAM_HISTORY_SIZE
  {
    var room := Room(h, oldest);
    assert |h| == |h.Keys| && |room| == |room.Keys|;
    if |h| >= MAX_DATAGRAM_HISTORY_SIZE {
      assert room.Keys == h.Keys - {oldest};
    }
    assert room[n := r].Keys == room.Keys + {n};
    assert |room[n := r]| == |room[n := r].Keys|;
  }

  lemma EmitBytes(s: Sender, ts: seq<TFrame>, more: bool, now: real, rto: real, oldest: int)
    requires BytesInv(s) && OldestOk(s.history, oldest)
    ensures BytesInv(Emit(s, ts, more, now, rto, oldest).0)
  {
    var r := Record(now, ReliableNumbers(Number(ts, s.nextReliable)), more || s.queue != [], 4 + FramesSize(ts));
    InsertConserves(s.history, s.unacked, s.sent, r, oldest);
    RoomSize(s.history, oldest, s.sent, r);
  }

  lemma {:induction false} PassBytes(p: Packing, c: Pass, olds: seq<int>)
    requires Turns(p, c, olds) && BytesInv(p.s)
    ensures BytesInv(Packed(p, c, olds).s)
    decreases |olds|
  {
    if olds != [] {
      PassBytes(p, c, olds[..|olds| - 1]);
      var q := Packed(p, c, olds[..|olds| - 1]);
      EmitBytes(q.s, q.rest[..Fill(q.rest, c.max, 0)], Fill(q.rest, c.max, 0) < |q.rest|, c.now, c.rto, olds[|olds| - 1]);
    }
  }

  lemma EvictBytes(s: Sender, now: real, timeout: real)
    requires BytesInv(s)
    ensures BytesInv(EvictStale(s, now, timeout))
  {
    var stale := Stale(s.history, now, timeout);
    TotalSplit(s.history, stale);
    assert |s.history| == |s.history.Keys| && |s.history - stale.Keys| == |(s.history - stale.Keys).Keys|;
    assert (s.history - stale.Keys).Keys == s.history.Keys - stale.Keys;
  }

  lemma AckOneBytes(s: Sender, n: int)
    requires BytesInv(s)
    ensures BytesInv(AckOne(s, n))
  {
    if n in s.history {
      TotalRemove(s.history, n);
      assert |s.history| == |s.history.Keys| && |s.history - {n}| == |(s.history - {n}).Keys|;
    }
  }

  lemma {:induction false} AckBytes(s: Sender, ns: seq<int>)
    requires BytesInv(s)
    ensures BytesInv(AckAll(s, ns)) && BytesInv(NakAll(s, ns))
  {
    if ns != [] {
      AckBytes(s, ns[..|ns| - 1]);
      AckOneBytes(AckAll(s, ns[..|ns| - 1]), ns[|ns| - 1]);
    }
  }

  lemma {:induction false} EnqueueFromBytes(s: Sender, mid: nat, m: Message, i: nat, p: nat)
    requires Shaped(s) && p < PRIORITIES && i <= |m.pieces|
    ensures var s' := EnqueueFrom(s, mid, m, i, p);
      s'.unacked == s.unacked && s'.history == s.history && s'.sent == s.sent && s'.resend == s.resend
    decreases |m.pieces| - i
  {
    if i < |m.pieces| {
      EnqueueFromBytes(Enqueue(s, mid, NewFrame(m, i), p), mid, m, i + 1, p);
    }
  }

  /** Byte conservation through sends, ticks (resends, evictions by age and by
      capacity, new datagrams), ACKs and NAKs. */
  lemma BytesConserved(s: Sender, a: Action, mtu: int)
    requires Shaped(s) && Enabled(s, a, mtu) && BytesInv(s)
    ensures BytesInv(Act(s, a, mtu))
  {
    match a
    case Submit(data, rel, ch, p) =>
      if 0 <= ch < NUMBER_OF_ORDERED_STREAMS {
        var m := NewMessage(s, data, rel, ch, mtu);
        EnqueueFromBytes(Accepted(s, m), |s.msgs|, m, 0, p);
      }
    case Tick(_, _, _, _, _, _, _) =>
      EvictBytes(s, a.now, a.timeout);
      PassBytes(Resending(s, a), ResendPass(a, mtu), a.olds);
      PassBytes(Drained(Resent(s, a, mtu).s), NewPass(a, mtu), a.newOlds);
      SenderQueue.RequeueOnly(Renewed(s, a, mtu).s, Renewed(s, a, mtu).rest);
    case Acked(ns) => AckBytes(s, ns);
    case Nakked(ns) => AckBytes(s, ns);
  }

  // ---------- what an ACK removes ----------

  /** The reliable numbers of the datagrams named. */
  function NumbersOf(h: map<int, Record>, ns: seq<int>): set<int> {
    if ns == [] then {}
    else NumbersOf(h, ns[..|ns| - 1]) + (if ns[|ns| - 1] in h then ElementSet(h[ns[|ns| - 1]].numbers) else {})
  }

  /** An ACK removes exactly the records it names, and exactly their frames
      stop being resent. */
  lemma {:induction false} AckRemovesExactly(s: Sender, ns: seq<int>)
    ensures AckAll(s, ns).history == s.history - ElementSet(ns)
    ensures AckAll(s, ns).resend == s.resend - NumbersOf(s.history, ns)
  {
    if ns == [] {
      assert s.history - ElementSet([]) == s.history;
      assert s.resend - {} == s.resend;
    } else {
      var front, n := ns[..|ns| - 1], ns[|ns| - 1];
      AckRemovesExactly(s, front);
      assert ElementSet(ns) == ElementSet(front) + {n} by { assert ns == front + [n]; }
      assert s.history - ElementSet(front) - {n} == s.history - ElementSet(ns);
      AckAgain(s, front, n);
    }
  }

  lemma AckAgain(s: Sender, front: seq<int>, n: int)
    requires AckAll(s, front).history == s.history - ElementSet(front)
    requires AckAll(s, front).resend == s.resend - NumbersOf(s.history, front)
    ensures AckOne(AckAll(s, front), n).resend
            == s.resend - (NumbersOf(s.history, front) + (if n in s.history then ElementSet(s.history[n].numbers) else {}))
    ensures AckOne(AckAll(s, front), n).history == s.history - ElementSet(front) - {n}
  {
    if n in ElementSet(front) && n in s.history {
      NamedBefore(s.history, front, n);
    }
  }

  lemma {:induction false} NamedBefore(h: map<int, Record>, ns: seq<int>, n: int)
    requires n in ElementSet(ns) && n in h
    ensures ElementSet(h[n].numbers) <= NumbersOf(h, ns)
  {
    if ns[|ns| - 1] != n {
      assert n in ns[..|ns| - 1];
      NamedBefore(h, ns[..|ns| - 1], n);
    }
  }

  // ---------- the congestion budget ----------

  /** A pass over new frames never leaves more in flight than what was there,
      or the window, plus one datagram. */
  lemma {:induction false} BudgetKept(p: Packing, c: Pass, olds: seq<int>, before: int)
    requires Turns(p, c, olds) && c.limit.Some? && c.max > 0 && p.out == [] && before == p.s.unacked
    requires SizeOk(p.rest, c.max)
    ensures var q := Packed(p, c, olds);
      q.s.unacked as real <= Congestion.MaxReal(before as real, c.limit.value) + (c.max + 4) as real
      && (q.out == [] ==> q.s.unacked == before) && SizeOk(q.rest, c.max)
    decreases |olds|
  {
    if olds != [] {
      BudgetKept(p, c, olds[..|olds| - 1], before);
      var q := Packed(p, c, olds[..|olds| - 1]);
      FillFits(q.rest, c.max, 0);
      assert forall t <- q.rest[Fill(q.rest, c.max, 0)..] :: t in q.rest;
    }
  }

  // ---------- datagram sizes ----------

  ghost predicate SizeOk(ts: seq<TFrame>, bound: int) {
    forall t <- ts :: FrameSize(t.f) <= bound
  }

  lemma {:induction false} FillFits(ts: seq<TFrame>, max: int, size: nat)
    requires SizeOk(ts, max) && size <= max
    ensures size + FramesSize(ts[..Fill(ts, max, size)]) <= max
    decreases |ts|
  {
    var k := Fill(ts, max, size);
    if k > 0 {
      assert ts[0] in ts && forall t <- ts[1..] :: t in ts;
      FillFits(ts[1..], max, size + FrameSize(ts[0].f));
      assert ts[..k][1..] == ts[1..][..k - 1];
    }
  }

  /** The bytes of an emitted datagram. */
  function Encoded(p: Packet): Bytes {
    DatagramBytes(Datagram.Data(Wire(p.number), false, p.continuous, false, WireFrames(p.frames)))
  }

  lemma {:induction false} FramesEncoded(ts: seq<TFrame>)
    ensures |FramesBytes(WireFrames(ts))| == FramesSize(ts)
  {
    if ts != [] {
      FramesEncoded(ts[1..]);
      FrameBytesSize(WireFrame(ts[0].f));
      assert WireFrames(ts)[1..] == WireFrames(ts[1..]);
    }
  }

  lemma {:induction false} NumberSize(ts: seq<TFrame>, next: nat)
    ensures FramesSize(Number(ts, next)) == FramesSize(ts)
  {
    if ts != [] {
      NumberSize(ts[1..], if NeedsNumber(ts[0]) then next + 1 else next);
    }
  }

  /** The record of a datagram carries its exact encoded size. */
  lemma EncodedSize(s: Sender, ts: seq<TFrame>, more: bool, now: real, rto: real, oldest: int)
    ensures var (s', p) := Emit(s, ts, more, now, rto, oldest);
      |Encoded(p)| == s'.history[s.sent].byteSize == 4 + FramesSize(ts)
  {
    var frames := Number(ts, s.nextReliable);
    FramesEncoded(frames);
    NumberSize(ts, s.nextReliable);
  }

  /** From MTU 124 on, and only from there, every frame `send` can make fits a datagram. */
  lemma FramesFitFrom124(mtu: int)
    ensures mtu >= 124 <==>
      forall s: Sender, data: Bytes, rel: Reliability, ch: nat, i: nat ::
        FitsFrame(s, data, rel, ch, mtu, i)
  {
    if mtu >= 124 {
      forall s: Sender, data: Bytes, rel: Reliability, ch: nat, i: nat
        ensures FitsFrame(s, data, rel, ch, mtu, i)
      {
        FrameFits(s, data, rel, ch, mtu, i);
      }
    } else {
      TooWide(mtu);
    }
  }

  /** The frame of piece i, if there is one, fits the payload of a datagram. */
  predicate FitsFrame(s: Sender, data: Bytes, rel: Reliability, ch: nat, mtu: int, i: nat) {
    Shaped(s) && ch < NUMBER_OF_ORDERED_STREAMS && i < |NewMessage(s, data, rel, ch, mtu).pieces| ==>
      FrameSize(NewFrame(NewMessage(s, data, rel, ch, mtu), i)) <= MaxDatagramPayload(mtu)
  }

  lemma FrameFits(s: Sender, data: Bytes, rel: Reliability, ch: nat, mtu: int, i: nat)
    requires mtu >= 124
    ensures FitsFrame(s, data, rel, ch, mtu, i)
  {
    Splitting.PiecesJoin(data, MaxPayload(mtu));
  }

  /** 65 bytes sent RELIABLE_SEQUENCED: a first fragment of 64 bytes behind a header of 23. */
  lemma TooWide(mtu: int)
    requires mtu < 124
    ensures !FitsFrame(NewSender(), seq(65, _ => 0), RELIABLE_SEQUENCED, 0, mtu, 0)
  {
    var data: Bytes := seq(65, _ => 0);
    var pieces := Splitting.Pieces(data, 64);
    assert MaxPayload(mtu) == 64;
    Splitting.LastIs(1, 65, 64);
    Splitting.LastIs(0, 64, 64);
    assert data[..64][..0] == [];
    assert Splitting.Pieces(data[..64], 64) == Splitting.Pieces([], 64) + [data[..64][0..]];
    assert pieces == Splitting.Pieces(data[..64], 64) + [data[64..]];
  }

  /** Everything waiting or tracked fits a datagram of max bytes of frames. */
  ghost predicate FitInv(s: Sender, max: int) {
    (forall e <- s.queue :: FrameSize(e.t.f) <= max) && ResendFit(s.resend, max)
  }

  ghost predicate ResendFit(resend: map<int, InFlight>, max: int) {
    forall n <- resend :: FrameSize(resend[n].t.f) <= max
  }

  ghost predicate PacketsFit(out: seq<Packet>, max: int) {
    forall p <- out :: |Encoded(p)| <= max + 4
  }

  lemma {:induction false} TrackFit(resend: map<int, InFlight>, ts: seq<TFrame>, now: real, rto: real, max: int)
    requires ResendFit(resend, max) && SizeOk(ts, max)
    ensures ResendFit(Track(resend, ts, now, rto), max)
    decreases |ts|
  {
    if ts != [] {
      assert ts[0] in ts && forall t <- ts[1..] :: t in ts;
      TrackFit(TrackOne(resend, ts[0], now, rto), ts[1..], now, rto, max);
    }
  }

  lemma {:induction false} NumberFit(ts: seq<TFrame>, next: nat, max: int)
    requires SizeOk(ts, max)
    ensures SizeOk(Number(ts, next), max)
  {
    if ts != [] {
      assert ts[0] in ts && forall t <- ts[1..] :: t in ts;
      NumberFit(ts[1..], if NeedsNumber(ts[0]) then next + 1 else next, max);
    }
  }

  lemma {:induction false} PassFit(p: Packing, c: Pass, olds: seq<int>)
    requires Turns(p, c, olds) && SizeOk(p.rest, c.max) && ResendFit(p.s.resend, c.max) && p.out == [] && c.max >= 0
    ensures var q := Packed(p, c, olds);
      SizeOk(q.rest, c.max) && ResendFit(q.s.resend, c.max) && PacketsFit(q.out, c.max)
    decreases |olds|
  {
    if olds != [] {
      PassFit(p, c, olds[..|olds| - 1]);
      var q := Packed(p, c, olds[..|olds| - 1]);
      var k := Fill(q.rest, c.max, 0);
      FillFits(q.rest, c.max, 0);
      assert forall t <- q.rest[..k] :: t in q.rest;
      assert forall t <- q.rest[k..] :: t in q.rest;
      NumberFit(q.rest[..k], q.s.nextReliable, c.max);
      TrackFit(q.s.resend, Number(q.rest[..k], q.s.nextReliable), c.now, c.rto, c.max);
      EncodedSize(q.s, q.rest[..k], k < |q.rest|, c.now, c.rto, olds[|olds| - 1]);
    }
  }

  lemma {:induction false} EnqueueFromFit(s: Sender, mid: nat, m: Message, i: nat, p: nat, max: int)
    requires Shaped(s) && p < PRIORITIES && i <= |m.pieces| && FitInv(s, max)
    requires forall j :: 0 <= j < |m.pieces| ==> FrameSize(NewFrame(m, j)) <= max
    ensures FitInv(EnqueueFrom(s, mid, m, i, p), max)
    decreases |m.pieces| - i
  {
    if i < |m.pieces| {
      SenderQueue.PushAt(s.queue, SenderQueue.Entry(s, mid, NewFrame(m, i), p));
      EnqueueFromFit(Enqueue(s, mid, NewFrame(m, i), p), mid, m, i + 1, p, max);
    }
  }

  lemma {:induction false} DueFit(resend: map<int, InFlight>, order: seq<int>, max: int)
    requires ResendFit(resend, max) && forall i :: 0 <= i < |order| ==> order[i] in resend
    ensures SizeOk(DueFrames(resend, order), max)
  {
    if order != [] {
      var n := order[0];
      assert n in resend && FrameSize(resend[n].t.f) <= max;
      DueFit(resend, order[1..], max);
    }
  }

  lemma {:induction false} FramesFit(queue: seq<Queued>, max: int)
    requires forall e <- queue :: FrameSize(e.t.f) <= max
    ensures SizeOk(Frames(queue), max)
  {
    if queue != [] {
      assert queue[0] in queue && forall e <- queue[1..] :: e in queue;
      FramesFit(queue[1..], max);
    }
  }

  lemma {:induction false} RequeueFit(s: Sender, ts: seq<TFrame>, max: int)
    requires FitInv(s, max) && SizeOk(ts, max)
    ensures FitInv(Requeue(s, ts), max)
    decreases |ts|
  {
    if ts != [] {
      assert ts[0] in ts && forall t <- ts[1..] :: t in ts;
      SenderQueue.PushAt(s.queue, Queued(0, s.counter + 1, ts[0]));
      RequeueFit(SenderQueue.RequeueOne(s, ts[0]), ts[1..], max);
    }
  }

  lemma {:induction false} AckFit(s: Sender, ns: seq<int>, max: int)
    requires FitInv(s, max)
    ensures FitInv(AckAll(s, ns), max) && FitInv(NakAll(s, ns), max)
  {
    if ns != [] {
      AckFit(s, ns[..|ns| - 1], max);
    }
  }

  lemma TickFit(s: Sender, a: Action, mtu: int)
    requires a.Tick? && Enabled(s, a, mtu) && FitInv(s, MaxDatagramPayload(mtu)) && MaxDatagramPayload(mtu) >= 0
    ensures FitInv(Finish(Renewed(s, a, mtu), NewPass(a, mtu)), MaxDatagramPayload(mtu))
    ensures PacketsFit(Emitted(s, a, mtu), MaxDatagramPayload(mtu))
  {
    var max := MaxDatagramPayload(mtu);
    DueFit(s.resend, a.order, max);
    PassFit(Resending(s, a), ResendPass(a, mtu), a.olds);
    SenderQueue.PassMoves(Resending(s, a), ResendPass(a, mtu), a.olds);
    FramesFit(Resent(s, a, mtu).s.queue, max);
    PassFit(Drained(Resent(s, a, mtu).s), NewPass(a, mtu), a.newOlds);
    SenderQueue.PassMoves(Drained(Resent(s, a, mtu).s), NewPass(a, mtu), a.newOlds);
    RequeueFit(Renewed(s, a, mtu).s, Renewed(s, a, mtu).rest, max);
  }

  /** From MTU 124 on every data datagram of every step is at most mtu - 33 bytes. */
  lemma DatagramsFit(s: Sender, a: Action, mtu: int)
    requires mtu >= 124 && Shaped(s) && Enabled(s, a, mtu) && FitInv(s, MaxDatagramPayload(mtu))
    ensures FitInv(Act(s, a, mtu), MaxDatagramPayload(mtu))
    ensures forall p <- Emitted(s, a, mtu) :: |Encoded(p)| <= mtu - 33
  {
    match a
    case Submit(data, rel, ch, p) =>
      if 0 <= ch < NUMBER_OF_ORDERED_STREAMS {
        var m := NewMessage(s, data, rel, ch, mtu);
        forall i | 0 <= i < |m.pieces|
          ensures FrameSize(NewFrame(m, i)) <= MaxDatagramPayload(mtu)
        {
          FrameFits(s, data, rel, ch, mtu, i);
        }
        EnqueueFromFit(Accepted(s, m), |s.msgs|, m, 0, p, MaxDatagramPayload(mtu));
      }
    case Tick(_, _, _, _, _, _, _) => TickFit(s, a, mtu);
    case Acked(ns) => AckFit(s, ns, MaxDatagramPayload(mtu));
    case Nakked(ns) => AckFit(s, ns, MaxDatagramPayload(mtu));
  }

  /** A tick obeys the window: beyond what was in flight after the resends, or
      the window, it leaves at most one datagram. */
  lemma TickBudget(s: Sender, a: Action, mtu: int)
    requires Shaped(s) && a.Tick? && Enabled(s, a, mtu) && FitInv(s, MaxDatagramPayload(mtu)) && MaxDatagramPayload(mtu) > 0
    ensures Act(s, a, mtu).unacked as real
            <= Congestion.MaxReal(Resent(s, a, mtu).s.unacked as real, a.cwnd) + (mtu - 33) as real
  {
    ResentFit(s, a, mtu);
    DrainedBudget(Resent(s, a, mtu).s, NewPass(a, mtu), a.newOlds);
    SenderQueue.RequeueOnly(Renewed(s, a, mtu).s, Renewed(s, a, mtu).rest);
  }

  lemma ResentFit(s: Sender, a: Action, mtu: int)
    requires a.Tick? && Enabled(s, a, mtu) && FitInv(s, MaxDatagramPayload(mtu))
    ensures SizeOk(Frames(Resent(s, a, mtu).s.queue), MaxDatagramPayload(mtu))
  {
    SenderQueue.PassMoves(Resending(s, a), ResendPass(a, mtu), a.olds);
    FramesFit(s.queue, MaxDatagramPayload(mtu));
  }

  lemma DrainedBudget(s: Sender, c: Pass, olds: seq<int>)
    requires c.limit.Some? && c.max > 0 && SizeOk(Frames(s.queue), c.max) && Turns(Drained(s), c, olds)
    ensures Packed(Drained(s), c, olds).s.unacked as real
            <= Congestion.MaxReal(s.unacked as real, c.limit.value) + (c.max + 4) as real
  {
    BudgetKept(Drained(s), c, olds, s.unacked);
  }

  // ---------- runs ----------

  /** In every run from a new sender the byte count is exact and the history bounded. */
  lemma {:induction false} RunBytes(s: Sender, actions: seq<Action>, mtu: int)
    requires Shaped(s) && BytesInv(s) && SenderQueue.RunEnabled(s, actions, mtu)
    ensures BytesInv(SenderQueue.Run(s, actions, mtu))
    decreases |actions|
  {
    if actions != [] {
      BytesConserved(s, actions[0], mtu);
      RunBytes(Act(s, actions[0], mtu), actions[1..], mtu);
    }
  }

  lemma NewSenderBytes(max: int)
    ensures Shaped(NewSender()) && BytesInv(NewSender()) && FitInv(NewSender(), max)
  {
  }

  /** Every datagram of the run is at most mtu - 33 bytes. */
  ghost predicate AllSmall(s: Sender, actions: seq<Action>, mtu: int)
    requires Shaped(s) && SenderQueue.RunEnabled(s, actions, mtu)
    decreases |actions|
  {
    actions == []
    || ((forall p <- Emitted(s, actions[0], mtu) :: |Encoded(p)| <= mtu - 33)
        && AllSmall(Act(s, actions[0], mtu), actions[1..], mtu))
  }

  lemma {:induction false} RunFits(s: Sender, actions: seq<Action>, mtu: int)
    requires Shaped(s) && FitInv(s, MaxDatagramPayload(mtu)) && SenderQueue.RunEnabled(s, actions, mtu) && mtu >= 124
    ensures AllSmall(s, actions, mtu) && FitInv(SenderQueue.Run(s, actions, mtu), MaxDatagramPayload(mtu))
    decreases |actions|
  {
    if actions != [] {
      DatagramsFit(s, actions[0], mtu);
      RunFits(Act(s, actions[0], mtu), actions[1..], mtu);
    }
  }

  /** What every run of a new sender promises about bytes. */
  lemma RunsCountAndFit(actions: seq<Action>, mtu: int)
    requires Shaped(NewSender()) && SenderQueue.RunEnabled(NewSender(), actions, mtu)
    ensures BytesInv(SenderQueue.Run(NewSender(), actions, mtu))
    ensures mtu >= 124 ==> AllSmall(NewSender(), actions, mtu)
  {
    NewSenderBytes(MaxDatagramPayload(mtu));
    RunBytes(NewSender(), actions, mtu);
    if mtu >= 124 {
      RunFits(NewSender(), actions, mtu);
    }
  }
}
