/** The send side of the reliability layer over unbounded numbers
    (_reliability.py:243-313, 349-556, 753-835). */
module SenderSpec {
  import opened Types
  import opened WireFormat
  import opened Tags
  import Splitting

  const PRIORITIES := 4
  const UNNUMBERED := -1

  /** An entry of the send queue; the queue is kept in heap order. */
  datatype Queued = Queued(weight: nat, counter: nat, t: TFrame)

  /** Resend tracking of one reliable frame. */
  datatype InFlight = InFlight(t: TFrame, nextAction: real, retransmission: real, timesSent: nat, byteSize: nat)

  /** What a datagram carried. */
  datatype Record = Record(sendTime: real, numbers: seq<int>, continuous: bool, byteSize: nat)

  /** A message as `send` accepted it: its channel key, and its frames
      log[first..first + |pieces|]. */
  datatype Message = Message(rel: Reliability, ch: nat, data: Bytes, oi: nat, sub: nat, first: nat, splitId: nat, pieces: seq<Bytes>)

  /** A data datagram as emitted. */
  datatype Packet = Packet(number: nat, frames: seq<TFrame>, continuous: bool)

  /** msgs: every message accepted by `send`.  log, prios: every frame queued,
      and its priority.  emitted: the frames taken from the queue into a
      datagram, in order.  numbered: the frame behind each reliable number.
      untracked: numbers sent while the resend buffer was full. */
  datatype Sender = Sender(
    sent: nat,
    nextReliable: nat,
    nextOrdering: seq<nat>,
    nextSequencing: seq<nat>,
    nextSplit: nat,
    queue: seq<Queued>,
    counter: nat,
    weights: seq<nat>,
    resend: map<int, InFlight>,
    history: map<int, Record>,
    unacked: int,
    lastReliableSend: real,
    msgs: seq<Message>,
    log: seq<TFrame>,
    prios: seq<nat>,
    emitted: seq<nat>,
    numbered: seq<nat>,
    untracked: set<int>)

  // ---------- priorities ----------

  function Shift(p: nat): nat
    requires p < PRIORITIES
  {
    [1, 2, 4, 8][p]
  }

  function InitialWeight(p: nat): nat
    requires p < PRIORITIES
  {
    Shift(p) * p + p
  }

  function WeightStep(p: nat): (w: nat)
    requires p < PRIORITIES
    ensures w > 0
  {
    Shift(p) * (p + 1) + p
  }

  function NewSender(): Sender {
    Sender(0, 0, seq(NUMBER_OF_ORDERED_STREAMS, _ => 0), seq(NUMBER_OF_ORDERED_STREAMS, _ => 0), 0,
           [], 0, seq(PRIORITIES, p requires 0 <= p < PRIORITIES => InitialWeight(p)),
           map[], map[], 0, 0.0, [], [], [], [], [], {})
  }

  predicate Shaped(s: Sender) {
    |s.nextOrdering| == |s.nextSequencing| == NUMBER_OF_ORDERED_STREAMS && |s.weights| == PRIORITIES
  }

  predicate QueuedLess(a: Queued, b: Queued) {
    a.weight < b.weight || (a.weight == b.weight && a.counter < b.counter)
  }

  function Push(queue: seq<Queued>, e: Queued): seq<Queued> {
    if queue == [] || QueuedLess(e, queue[0]) then [e] + queue
    else [queue[0]] + Push(queue[1..], e)
  }

  function Frames(queue: seq<Queued>): (r: seq<TFrame>)
    ensures |r| == |queue|
  {
    if queue == [] then [] else [queue[0].t] + Frames(queue[1..])
  }

  // ---------- send ----------

  function MaxPayload(mtu: int): nat {
    Max(mtu - (UDP_HEADER_SIZE + 9 + 13 + 10), 64)
  }

  /** Split messages travel reliably. */
  function Upgraded(rel: Reliability): Reliability {
    match rel
    case UNRELIABLE => RELIABLE
    case UNRELIABLE_WITH_ACK_RECEIPT => RELIABLE_WITH_ACK_RECEIPT
    case UNRELIABLE_SEQUENCED => RELIABLE_SEQUENCED
    case _ => rel
  }

  function OrderingFor(s: Sender, rel: Reliability, ch: nat): nat
    requires Shaped(s) && ch < NUMBER_OF_ORDERED_STREAMS
  {
    if rel.IsOrdered() then s.nextOrdering[ch] else 0
  }

  function SequencingFor(s: Sender, rel: Reliability, ch: nat): nat
    requires Shaped(s) && ch < NUMBER_OF_ORDERED_STREAMS
  {
    if rel.IsSequenced() then s.nextSequencing[ch] else 0
  }

  /** `_advance_ordering_counters`. */
  function Advance(s: Sender, rel: Reliability, ch: nat): (s': Sender)
    requires Shaped(s) && ch < NUMBER_OF_ORDERED_STREAMS
    ensures Shaped(s')
  {
    if rel.IsSequenced() then s.(nextSequencing := s.nextSequencing[ch := s.nextSequencing[ch] + 1])
    else if rel.IsOrdered() then
      s.(nextOrdering := s.nextOrdering[ch := s.nextOrdering[ch] + 1], nextSequencing := s.nextSequencing[ch := 0])
    else s
  }

  function NewFrame(m: Message, i: nat): MessageFrame
    requires i < |m.pieces|
  {
    MessageFrame(m.rel, m.pieces[i], 8 * |m.pieces[i]|,
                 if m.rel.IsReliable() then UNNUMBERED else 0, m.sub, m.oi, m.ch,
                 if |m.pieces| == 1 then 0 else |m.pieces|, m.splitId, if |m.pieces| == 1 then 0 else i)
  }

  /** `_enqueue_frame` and `_get_next_weight`. */
  function Enqueue(s: Sender, mid: nat, f: MessageFrame, p: nat): (s': Sender)
    requires Shaped(s) && p < PRIORITIES
    ensures Shaped(s')
  {
    var t := TFrame(|s.log|, mid, f);
    s.(weights := s.weights[p := s.weights[p] + WeightStep(p)],
       counter := s.counter + 1,
       queue := Push(s.queue, Queued(s.weights[p], s.counter + 1, t)),
       log := s.log + [t],
       prios := s.prios + [p])
  }

  /** Pieces i, i + 1, ... of the message are queued. */
  function EnqueueFrom(s: Sender, mid: nat, m: Message, i: nat, p: nat): (s': Sender)
    requires Shaped(s) && p < PRIORITIES && i <= |m.pieces|
    ensures Shaped(s')
    decreases |m.pieces| - i
  {
    if i == |m.pieces| then s
    else EnqueueFrom(Enqueue(s, mid, NewFrame(m, i), p), mid, m, i + 1, p)
  }

  /** The message `send` makes of its arguments. */
  function NewMessage(s: Sender, data: Bytes, rel: Reliability, ch: nat, mtu: int): Message
    requires Shaped(s) && ch < NUMBER_OF_ORDERED_STREAMS
  {
    var whole := |data| <= MaxPayload(mtu);
    var r := if whole then rel else Upgraded(rel);
    Message(r, ch, data, OrderingFor(s, r, ch), SequencingFor(s, r, ch), |s.log|,
            if whole then 0 else s.nextSplit % 0x10000,
            if whole then [data] else Splitting.Pieces(data, MaxPayload(mtu)))
  }

  /** The message is recorded and its counters are consumed. */
  function Accepted(s: Sender, m: Message): (s': Sender)
    requires Shaped(s) && m.ch < NUMBER_OF_ORDERED_STREAMS
    ensures Shaped(s')
  {
    Advance(s, m.rel, m.ch).(msgs := s.msgs + [m],
                             nextSplit := if |m.pieces| == 1 then s.nextSplit else s.nextSplit + 1)
  }

  /** `send`; a channel out of range is refused and changes nothing. */
  function Send(s: Sender, data: Bytes, rel: Reliability, ch: int, p: nat, mtu: int): (r: (Sender, bool))
    requires Shaped(s) && p < PRIORITIES
    ensures Shaped(r.0)
  {
    if !(0 <= ch < NUMBER_OF_ORDERED_STREAMS) then (s, false)
    else
      var m := NewMessage(s, data, rel, ch, mtu);
      (EnqueueFrom(Accepted(s, m), |s.msgs|, m, 0, p), true)
  }

  // ---------- packing ----------

  function FramesSize(ts: seq<TFrame>): nat {
    if ts == [] then 0 else FrameSize(ts[0].f) + FramesSize(ts[1..])
  }

  /** How many frames join a datagram that already holds size bytes of frames. */
  function Fill(ts: seq<TFrame>, max: int, size: nat): (k: nat)
    ensures k <= |ts|
    ensures ts != [] && max > 0 && size == 0 ==> k > 0
  {
    if ts == [] || size >= max || (size > 0 && size + FrameSize(ts[0].f) > max) then 0
    else 1 + Fill(ts[1..], max, size + FrameSize(ts[0].f))
  }

  predicate NeedsNumber(t: TFrame) {
    t.f.reliability.IsReliable() && t.f.reliableNumber == UNNUMBERED
  }

  /** Late numbering: unnumbered reliable frames take next, next + 1, ... */
  function Number(ts: seq<TFrame>, next: nat): (r: seq<TFrame>)
    ensures |r| == |ts|
  {
    if ts == [] then []
    else if NeedsNumber(ts[0]) then [ts[0].(f := ts[0].f.(reliableNumber := next))] + Number(ts[1..], next + 1)
    else [ts[0]] + Number(ts[1..], next)
  }

  /** The frames that take a new number. */
  function Newly(ts: seq<TFrame>): seq<nat> {
    if ts == [] then [] else (if NeedsNumber(ts[0]) then [ts[0].fid] else []) + Newly(ts[1..])
  }

  function ReliableNumbers(ts: seq<TFrame>): seq<int> {
    if ts == [] then []
    else (if ts[0].f.reliability.IsReliable() then [ts[0].f.reliableNumber] else []) + ReliableNumbers(ts[1..])
  }

  function Pow2(n: nat): nat {
    if n == 0 then 1 else 2 * Pow2(n - 1)
  }

  function TrackOne(resend: map<int, InFlight>, t: TFrame, now: real, rto: real): map<int, InFlight> {
    var n := t.f.reliableNumber;
    if !t.f.reliability.IsReliable() then resend
    else if n in resend then
      var m := resend[n];
      resend[n := m.(nextAction := now + rto * Pow2(Min(m.timesSent, 5)) as real, retransmission := rto,
                     timesSent := m.timesSent + 1)]
    else if |resend| < MAX_RESEND_BUFFER_SIZE then resend[n := InFlight(t, now + rto, rto, 1, FrameSize(t.f))]
    else resend
  }

  function Track(resend: map<int, InFlight>, ts: seq<TFrame>, now: real, rto: real): map<int, InFlight>
    decreases |ts|
  {
    if ts == [] then resend else Track(TrackOne(resend, ts[0], now, rto), ts[1..], now, rto)
  }

  /** Room for one more record: at capacity an oldest one goes. */
  function Room(history: map<int, Record>, oldest: int): map<int, Record> {
    if |history| >= MAX_DATAGRAM_HISTORY_SIZE then history - {oldest} else history
  }

  function SizeAt(history: map<int, Record>, n: int): nat {
    if n in history then history[n].byteSize else 0
  }

  predicate OldestRecord(history: map<int, Record>, n: int) {
    n in history && forall k <- history :: history[n].sendTime <= history[k].sendTime
  }

  ghost predicate OldestOk(history: map<int, Record>, n: int) {
    |history| >= MAX_DATAGRAM_HISTORY_SIZE ==> OldestRecord(history, n)
  }

  function Freed(history: map<int, Record>, oldest: int): nat {
    if |history| >= MAX_DATAGRAM_HISTORY_SIZE then SizeAt(history, oldest) else 0
  }

  /** One datagram with frames ts goes out; more says that frames remain. */
  function Emit(s: Sender, ts: seq<TFrame>, more: bool, now: real, rto: real, oldest: int): (Sender, Packet) {
    var frames := Number(ts, s.nextReliable);
    var continuous := more || s.queue != [];
    var size := 4 + FramesSize(ts);
    var resend := Track(s.resend, frames, now, rto);
    (s.(sent := s.sent + 1,
        nextReliable := s.nextReliable + |Newly(ts)|,
        numbered := s.numbered + Newly(ts),
        history := Room(s.history, oldest)[s.sent := Record(now, ReliableNumbers(frames), continuous, size)],
        unacked := s.unacked - Freed(s.history, oldest) + size,
        resend := resend,
        untracked := s.untracked + (set n | n in ReliableNumbers(frames) && n !in resend),
        lastReliableSend := if ReliableNumbers(frames) != [] then now else s.lastReliableSend),
     Packet(s.sent, frames, continuous))
  }

  /** `_pack_datagrams` at the top of its outer loop. */
  datatype Packing = Packing(s: Sender, rest: seq<TFrame>, out: seq<Packet>)

  /** The constants of one packing pass; limit is the congestion window, absent when resending. */
  datatype Pass = Pass(max: int, now: real, rto: real, limit: Option<real>)

  /** The budget is used up and something has been sent. */
  predicate Exhausted(p: Packing, c: Pass) {
    c.limit.Some? && p.out != [] && p.s.unacked as real + 1.0 > c.limit.value
  }

  /** The loop body runs and fills a datagram. */
  predicate Going(p: Packing, c: Pass) {
    p.rest != [] && !Exhausted(p, c) && c.max > 0
  }

  function Fids(ts: seq<TFrame>): (r: seq<nat>)
    ensures |r| == |ts|
  {
    if ts == [] then [] else [ts[0].fid] + Fids(ts[1..])
  }

  function PackOne(p: Packing, c: Pass, oldest: int): Packing
    requires Going(p, c)
  {
    var k := Fill(p.rest, c.max, 0);
    var (s, packet) := Emit(p.s, p.rest[..k], k < |p.rest|, c.now, c.rto, oldest);
    Packing(if c.limit.Some? then s.(emitted := s.emitted + Fids(p.rest[..k])) else s,
            p.rest[k..], p.out + [packet])
  }

  /** Some number of turns of the loop, with the evictions made on the way. */
  ghost predicate Turns(p: Packing, c: Pass, olds: seq<int>)
    decreases |olds|, 0
  {
    olds == []
    || (Turns(p, c, olds[..|olds| - 1])
        && var q := Packed(p, c, olds[..|olds| - 1]); Going(q, c) && OldestOk(q.s.history, olds[|olds| - 1]))
  }

  ghost function Packed(p: Packing, c: Pass, olds: seq<int>): Packing
    requires Turns(p, c, olds)
    decreases |olds|, 1
  {
    if olds == [] then p else PackOne(Packed(p, c, olds[..|olds| - 1]), c, olds[|olds| - 1])
  }

  /** Frames that must wait go back with weight 0. */
  function Requeue(s: Sender, ts: seq<TFrame>): Sender
    decreases |ts|
  {
    if ts == [] then s
    else Requeue(s.(counter := s.counter + 1, queue := Push(s.queue, Queued(0, s.counter + 1, ts[0]))), ts[1..])
  }

  function Finish(p: Packing, c: Pass): Sender {
    if p.rest != [] && Exhausted(p, c) then Requeue(p.s, p.rest) else p.s
  }

  // ---------- update ----------

  function Stale(history: map<int, Record>, now: real, timeout: real): map<int, Record> {
    map n | n in history && now - history[n].sendTime > timeout :: history[n]
  }

  /** The bytes of all records. */
  ghost function Total(history: map<int, Record>): nat
    decreases |history|
  {
    if history.Keys == {} then 0
    else
      var n := Any(history.Keys);
      assert |history| == |history.Keys| && |history - {n}| == |(history - {n}).Keys|;
      history[n].byteSize + Total(history - {n})
  }

  ghost function EvictStale(s: Sender, now: real, timeout: real): Sender {
    var stale := Stale(s.history, now, timeout);
    s.(history := s.history - stale.Keys, unacked := s.unacked - Total(stale))
  }

  /** order lists the frames due for a resend, each once, in any order. */
  ghost predicate DueOrder(s: Sender, now: real, order: seq<int>) {
    (forall i, j :: 0 <= i < j < |order| ==> order[i] != order[j])
    && (forall i :: 0 <= i < |order| ==> order[i] in s.resend && now >= s.resend[order[i]].nextAction)
    && (forall n :: n in s.resend && now >= s.resend[n].nextAction ==> n in order)
  }

  function DueFrames(resend: map<int, InFlight>, order: seq<int>): (r: seq<TFrame>)
    requires forall i :: 0 <= i < |order| ==> order[i] in resend
    ensures |r| == |order|
  {
    if order == [] then [] else [resend[order[0]].t] + DueFrames(resend, order[1..])
  }

  function MaxDatagramPayload(mtu: int): int {
    mtu - UDP_HEADER_SIZE - 9
  }

  // ---------- acknowledgements ----------

  function ElementSet(ns: seq<int>): set<int> {
    set n | n in ns
  }

  function AckOne(s: Sender, n: int): Sender {
    if n !in s.history then s
    else
      var r := s.history[n];
      s.(history := s.history - {n}, unacked := s.unacked - r.byteSize,
         resend := s.resend - ElementSet(r.numbers))
  }

  function AckAll(s: Sender, ns: seq<int>): Sender {
    if ns == [] then s else AckOne(AckAll(s, ns[..|ns| - 1]), ns[|ns| - 1])
  }

  /** The frames of a NAKed datagram become due at once. */
  function NakOne(s: Sender, n: int): Sender {
    if n !in s.history then s
    else
      var ks := s.history[n].numbers;
      s.(resend := map k | k in s.resend :: if k in ks then s.resend[k].(nextAction := 0.0) else s.resend[k])
  }

  function NakAll(s: Sender, ns: seq<int>): Sender {
    if ns == [] then s else NakOne(NakAll(s, ns[..|ns| - 1]), ns[|ns| - 1])
  }

  // ---------- runs ----------

  /** What happens to a sender.  A tick carries what the congestion controller
      says and the choices the code leaves to its dictionaries' order. */
  datatype Action =
    | Submit(data: Bytes, rel: Reliability, ch: int, priority: nat)
    | Tick(now: real, timeout: real, rto: real, cwnd: real, order: seq<int>, olds: seq<int>, newOlds: seq<int>)
    | Acked(ns: seq<int>)
    | Nakked(ns: seq<int>)

  function ResendPass(a: Action, mtu: int): Pass
    requires a.Tick?
  {
    Pass(MaxDatagramPayload(mtu), a.now, a.rto, None)
  }

  function NewPass(a: Action, mtu: int): Pass
    requires a.Tick?
  {
    Pass(MaxDatagramPayload(mtu), a.now, a.rto, Some(a.cwnd))
  }

  /** The resend pass of a tick: after the eviction of stale records, all due frames. */
  ghost function Resending(s: Sender, a: Action): Packing
    requires a.Tick? && DueOrder(s, a.now, a.order)
  {
    Packing(EvictStale(s, a.now, a.timeout), DueFrames(s.resend, a.order), [])
  }

  /** The pass over new frames: the queue is drained first. */
  function Drained(s: Sender): Packing {
    Packing(s.(queue := []), Frames(s.queue), [])
  }

  /** A whole pass: turns until the loop ends. */
  ghost predicate Passes(p: Packing, c: Pass, olds: seq<int>) {
    Turns(p, c, olds) && !Going(Packed(p, c, olds), c)
  }

  ghost predicate Enabled(s: Sender, a: Action, mtu: int) {
    match a
    case Submit(_, _, _, p) => p < PRIORITIES
    case Tick(_, _, _, _, _, _, _) =>
      DueOrder(s, a.now, a.order) && Passes(Resending(s, a), ResendPass(a, mtu), a.olds)
      && Passes(Drained(Packed(Resending(s, a), ResendPass(a, mtu), a.olds).s), NewPass(a, mtu), a.newOlds)
    case _ => true
  }

  /** The state at the end of each pass of a tick. */
  ghost function Resent(s: Sender, a: Action, mtu: int): Packing
    requires a.Tick? && Enabled(s, a, mtu)
  {
    Packed(Resending(s, a), ResendPass(a, mtu), a.olds)
  }

  ghost function Renewed(s: Sender, a: Action, mtu: int): Packing
    requires a.Tick? && Enabled(s, a, mtu)
  {
    Packed(Drained(Resent(s, a, mtu).s), NewPass(a, mtu), a.newOlds)
  }

  ghost function Act(s: Sender, a: Action, mtu: int): Sender
    requires Shaped(s) && Enabled(s, a, mtu)
  {
    match a
    case Submit(data, rel, ch, p) => Send(s, data, rel, ch, p, mtu).0
    case Tick(_, _, _, _, _, _, _) => Finish(Renewed(s, a, mtu), NewPass(a, mtu))
    case Acked(ns) => AckAll(s, ns)
    case Nakked(ns) => NakAll(s, ns)
  }

  /** The data datagrams a step emits. */
  ghost function Emitted(s: Sender, a: Action, mtu: int): seq<Packet>
    requires Enabled(s, a, mtu)
  {
    if a.Tick? then Resent(s, a, mtu).out + Renewed(s, a, mtu).out else []
  }
}
