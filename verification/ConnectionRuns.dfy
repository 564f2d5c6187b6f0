/** What every run of a connection keeps, the retry schedule of the handshake,
    and the handshake of one client with one server (_connection.py). */
module ConnectionRuns {
  import opened Types
  import opened BitSpec
  import opened WireFormat
  import opened ConnectionSpec

  // ---------- signals ----------

  /** The last CONNECT has not been followed by a DISCONNECT. */
  predicate Open(log: seq<Signal>) {
    log != []
    && match log[|log| - 1]
       case Connect => true
       case Disconnect(_) => false
       case Receive(_) => Open(log[..|log| - 1])
  }

  ghost predicate ReceivesInside(log: seq<Signal>) {
    forall i :: 0 <= i < |log| && log[i].Receive? ==> Open(log[..i])
  }

  /** Every CONNECT comes after the DISCONNECT of the connection before. */
  ghost predicate Alternates(log: seq<Signal>) {
    forall i :: 0 <= i < |log| && log[i].Connect? ==> !Open(log[..i])
  }

  ghost predicate SignalInv(c: Conn) {
    ReceivesInside(c.log) && (c.state == CONNECTED ==> Open(c.log))
  }

  lemma Append(log: seq<Signal>, s: Signal)
    ensures Open(log + [s]) == (s.Connect? || (s.Receive? && Open(log)))
    ensures ReceivesInside(log) && (s.Receive? ==> Open(log)) ==> ReceivesInside(log + [s])
    ensures Alternates(log) && (s.Connect? ==> !Open(log)) ==> Alternates(log + [s])
  {
    var after := log + [s];
    assert after[..|log|] == log;
    forall i | 0 <= i < |log|
      ensures after[i] == log[i] && after[..i] == log[..i]
    {
    }
  }

  lemma MessageSignals(c: Conn, cfg: Config, msg: Bytes, now: real, wall: nat)
    requires SignalInv(c)
    ensures SignalInv(OnMessage(c, cfg, msg, now, wall).c)
  {
    Append(c.log, Connect);
    Append(c.log, Disconnect([]));
    Append(c.log, Receive(msg));
  }

  lemma {:induction false} MessagesSignals(c: Conn, cfg: Config, msgs: seq<Bytes>, now: real, wall: nat)
    requires SignalInv(c)
    ensures SignalInv(OnMessages(c, cfg, msgs, now, wall).c)
    decreases |msgs|
  {
    if msgs != [] {
      MessageSignals(c, cfg, msgs[0], now, wall);
      var first := OnMessage(c, cfg, msgs[0], now, wall);
      if !first.raised {
        MessagesSignals(first.c, cfg, msgs[1..], now, wall);
      }
    }
  }

  lemma OfflineSignals(c: Conn, cfg: Config, data: Bytes, now: real, wall: nat)
    requires IsOffline(data) && c.state != CONNECTED
    ensures var c' := OnOffline(c, cfg, data, now, wall).c;
      c'.log == c.log && c'.onAckSent == c.onAckSent && (c'.state == c.state || c'.state == CONNECTING)
  {
  }

  lemma DatagramSignals(c: Conn, cfg: Config, data: Bytes, msgs: seq<Bytes>, now: real, wall: nat)
    requires SignalInv(c)
    ensures SignalInv(OnDatagram(c, cfg, data, msgs, now, wall).c)
  {
    var c1 := c.(lastRecv := now);
    Append(c.log, Disconnect(data));
    MessagesSignals(c1, cfg, msgs, now, wall);
    if IsOffline(data) && c.state != CONNECTED {
      OfflineSignals(c1, cfg, data, now, wall);
    }
  }

  lemma TickSignals(c: Conn, cfg: Config, layer: Layer, now: real)
    requires SignalInv(c)
    ensures SignalInv(Update(c, cfg, layer, now).c)
  {
    Append(c.log, Disconnect([]));
  }

  /** RECEIVE is signalled only between a CONNECT and the next DISCONNECT,
      whatever is called and whatever arrives. */
  lemma CallSignals(c: Conn, cfg: Config, call: Call, now: real, wall: nat)
    requires SignalInv(c) && Callable(cfg, call)
    ensures SignalInv(Do(c, cfg, call, now, wall).c)
  {
    match call
    case Datagram(data, msgs) => DatagramSignals(c, cfg, data, msgs, now, wall);
    case Tick(layer) => TickSignals(c, cfg, layer, now);
    case _ =>
  }

  datatype Timed = Timed(call: Call, now: real, wall: nat)

  ghost predicate AllCallable(cfg: Config, calls: seq<Timed>) {
    forall i :: 0 <= i < |calls| ==> Callable(cfg, calls[i].call)
  }

  ghost function DoAll(c: Conn, cfg: Config, calls: seq<Timed>): Conn
    requires AllCallable(cfg, calls)
    decreases |calls|
  {
    if calls == [] then c
    else
      var first := calls[0];
      assert forall i :: 0 <= i < |calls[1..]| ==> calls[1..][i] == calls[i + 1];
      DoAll(Do(c, cfg, first.call, first.now, first.wall).c, cfg, calls[1..])
  }

  lemma {:induction false} RunSignals(c: Conn, cfg: Config, calls: seq<Timed>)
    requires SignalInv(c) && AllCallable(cfg, calls)
    ensures SignalInv(DoAll(c, cfg, calls))
    decreases |calls|
  {
    if calls != [] {
      CallSignals(c, cfg, calls[0].call, calls[0].now, calls[0].wall);
      assert forall i :: 0 <= i < |calls[1..]| ==> calls[1..][i] == calls[i + 1];
      RunSignals(Do(c, cfg, calls[0].call, calls[0].now, calls[0].wall).c, cfg, calls[1..]);
    }
  }

  // ---------- every connection is closed before the next ----------

  /** Outside a connection none is open, nor once the peer has said goodbye. */
  ghost predicate PairInv(c: Conn) {
    SignalInv(c) && Alternates(c.log)
    && (c.state == DISCONNECTED || c.state == CONNECTING || (c.onAckSent && c.state == DISCONNECTING) ==> !Open(c.log))
  }

  lemma MessagePairs(c: Conn, cfg: Config, msg: Bytes, now: real, wall: nat)
    requires PairInv(c)
    ensures PairInv(OnMessage(c, cfg, msg, now, wall).c)
  {
    MessageSignals(c, cfg, msg, now, wall);
    Append(c.log, Connect);
    Append(c.log, Disconnect([]));
    Append(c.log, Receive(msg));
  }

  lemma {:induction false} MessagesPair(c: Conn, cfg: Config, msgs: seq<Bytes>, now: real, wall: nat)
    requires PairInv(c)
    ensures PairInv(OnMessages(c, cfg, msgs, now, wall).c)
    decreases |msgs|
  {
    if msgs != [] {
      MessagePairs(c, cfg, msgs[0], now, wall);
      var first := OnMessage(c, cfg, msgs[0], now, wall);
      if !first.raised {
        MessagesPair(first.c, cfg, msgs[1..], now, wall);
      }
    }
  }

  /** The flag of an earlier goodbye is still set when this side closes. */
  predicate StaleFlag(c: Conn, call: Call) {
    call.Shut? && c.state == CONNECTED && c.onAckSent
  }

  lemma DatagramPairs(c: Conn, cfg: Config, data: Bytes, msgs: seq<Bytes>, now: real, wall: nat)
    requires PairInv(c)
    ensures PairInv(OnDatagram(c, cfg, data, msgs, now, wall).c)
  {
    var c1 := c.(lastRecv := now);
    DatagramSignals(c, cfg, data, msgs, now, wall);
    Append(c.log, Disconnect(data));
    MessagesPair(c1, cfg, msgs, now, wall);
    if IsOffline(data) && c.state != CONNECTED {
      OfflineSignals(c1, cfg, data, now, wall);
    }
  }

  lemma LostPairs(c: Conn)
    requires PairInv(c)
    ensures PairInv(Lost(c))
  {
    Append(c.log, Disconnect([]));
  }

  lemma RetransmittedPairs(c: Conn, cfg: Config, now: real)
    requires PairInv(c)
    ensures PairInv(Retransmitted(c, cfg, now).c)
  {
    if RetransmitDue(c, cfg, now) {
      LostPairs(Counted(c));
    }
  }

  lemma ClosedPairs(c: Conn, layer: Layer)
    requires PairInv(c)
    ensures PairInv(Closed(c, layer))
  {
    LostPairs(c);
  }

  lemma TickPairs(c: Conn, cfg: Config, layer: Layer, now: real)
    requires PairInv(c)
    ensures PairInv(Update(c, cfg, layer, now).c)
  {
    LostPairs(c);
    RetransmittedPairs(c, cfg, now);
    ClosedPairs(Pinged(Retransmitted(c, cfg, now).c, now).c, layer);
  }

  /** A call keeps CONNECT and DISCONNECT paired if and only if it does not
      close a connection whose object carries the flag of an earlier goodbye. */
  lemma CallPairs(c: Conn, cfg: Config, call: Call, now: real, wall: nat)
    requires PairInv(c) && Callable(cfg, call) && (call.Start? ==> c.state == DISCONNECTED || c.state == CONNECTING)
    ensures PairInv(Do(c, cfg, call, now, wall).c) <==> !StaleFlag(c, call)
  {
    CallSignals(c, cfg, call, now, wall);
    match call
    case Datagram(data, msgs) => DatagramPairs(c, cfg, data, msgs, now, wall);
    case Tick(layer) => TickPairs(c, cfg, layer, now);
    case _ =>
  }

  /** Then the next tick ends the connection without a DISCONNECT. */
  lemma GoodbyeLost(c: Conn, cfg: Config, layer: Layer, now: real, wall: nat)
    requires SignalInv(c) && StaleFlag(c, Shut) && !layer.acksPending && !TimedOut(Close(c).c, cfg, now)
    ensures var c' := Update(Close(c).c, cfg, layer, now).c;
      c'.state == DISCONNECTED && Open(c'.log)
  {
  }

  /** No call closes a connection under the flag of an earlier goodbye, and
      connecting starts only where no connection is up. */
  ghost predicate NeverStale(c: Conn, cfg: Config, calls: seq<Timed>)
    requires AllCallable(cfg, calls)
    decreases |calls|
  {
    calls == []
    || (!StaleFlag(c, calls[0].call) && (calls[0].call.Start? ==> c.state == DISCONNECTED || c.state == CONNECTING)
        && AllCallable(cfg, calls[1..])
        && NeverStale(Do(c, cfg, calls[0].call, calls[0].now, calls[0].wall).c, cfg, calls[1..]))
  }

  /** Over every such run CONNECT and DISCONNECT alternate. */
  lemma {:induction false} RunPairs(c: Conn, cfg: Config, calls: seq<Timed>)
    requires PairInv(c) && AllCallable(cfg, calls) && NeverStale(c, cfg, calls)
    ensures PairInv(DoAll(c, cfg, calls))
    decreases |calls|
  {
    if calls != [] {
      CallPairs(c, cfg, calls[0].call, calls[0].now, calls[0].wall);
      RunPairs(Do(c, cfg, calls[0].call, calls[0].now, calls[0].wall).c, cfg, calls[1..]);
    }
  }

  /** A new connection keeps CONNECT and DISCONNECT alternating, and RECEIVE
      between them, over every run without such a call. */
  lemma RunsAlternate(mtu: int, cfg: Config, calls: seq<Timed>)
    requires AllCallable(cfg, calls) && NeverStale(NewConn(mtu), cfg, calls)
    ensures var c := DoAll(NewConn(mtu), cfg, calls);
      Alternates(c.log) && ReceivesInside(c.log) && (c.state == CONNECTED ==> Open(c.log))
      && (c.state == DISCONNECTED || c.state == CONNECTING ==> !Open(c.log))
  {
    RunPairs(NewConn(mtu), cfg, calls);
  }

  lemma DoCons(c: Conn, cfg: Config, first: Timed, rest: seq<Timed>)
    requires Callable(cfg, first.call) && AllCallable(cfg, rest)
    ensures AllCallable(cfg, [first] + rest)
    ensures DoAll(c, cfg, [first] + rest) == DoAll(Do(c, cfg, first.call, first.now, first.wall).c, cfg, rest)
  {
    assert ([first] + rest)[1..] == rest;
  }

  /** A datagram of the reliability layer: its valid bit is set. */
  predicate FromLayer(data: Bytes) {
    |data| >= 1 && data[0] >= 128
  }

  /** An object that dialled, was told goodbye, and dialled again. */
  function Redialled(cfg: Config, layer: Layer, t: real, data: Bytes, accepted: Bytes): seq<Timed> {
    [Timed(Start, t, 0)] + ([Timed(Datagram(data, [[ID_DISCONNECTION_NOTIFICATION]]), t, 0)]
      + ([Timed(Tick(layer), t, 0)] + ([Timed(Start, t, 0)] + ([Timed(Datagram(data, [accepted]), t, 0)] + []))))
  }

  lemma OneMessage(c: Conn, cfg: Config, data: Bytes, msg: Bytes, now: real, wall: nat)
    requires c.state == CONNECTING && FromLayer(data)
    ensures OnDatagram(c, cfg, data, [msg], now, wall).c == OnMessage(c.(lastRecv := now), cfg, msg, now, wall).c
  {
    var c1 := c.(lastRecv := now);
    var first := OnMessage(c1, cfg, msg, now, wall);
    assert [msg][1..] == [] && OnMessages(first.c, cfg, [], now, wall) == Quiet(first.c);
    assert OnDatagram(c, cfg, data, [msg], now, wall) == OnMessages(c1, cfg, [msg], now, wall);
  }

  lemma FirstCall(c: Conn, cfg: Config, layer: Layer, t: real, data: Bytes)
    requires FromLayer(data) && !cfg.isServer && cfg.sizes != [] && cfg.timeout >= 0.0 && t > 0.0 && !layer.acksPending
    ensures var c1 := OnDatagram(StartConnect(c, cfg, t).c, cfg, data, [[ID_DISCONNECTION_NOTIFICATION]], t, 0).c;
      var c2 := Update(c1, cfg, layer, t).c;
      c2.state == DISCONNECTED && c2.onAckSent
  {
    OneMessage(StartConnect(c, cfg, t).c, cfg, data, [ID_DISCONNECTION_NOTIFICATION], t, 0);
  }

  lemma SecondCall(c: Conn, cfg: Config, t: real, data: Bytes, accepted: Bytes)
    requires FromLayer(data) && !cfg.isServer && cfg.sizes != [] && c.onAckSent
    requires |accepted| == AcceptedSize(cfg) && accepted[0] == ID_CONNECTION_REQUEST_ACCEPTED
    ensures StaleFlag(OnDatagram(StartConnect(c, cfg, t).c, cfg, data, [accepted], t, 0).c, Shut)
  {
    OneMessage(StartConnect(c, cfg, t).c, cfg, data, accepted, t, 0);
  }

  /** The state is real: a client that dials, is told goodbye before it is
      accepted, dials again and is accepted, is connected under the old flag. */
  lemma StaleFlagReached(mtu: int, cfg: Config, layer: Layer, t: real, data: Bytes, accepted: Bytes)
    requires FromLayer(data) && !cfg.isServer && cfg.sizes != [] && cfg.timeout >= 0.0 && t > 0.0 && !layer.acksPending
    requires |accepted| == AcceptedSize(cfg) && accepted[0] == ID_CONNECTION_REQUEST_ACCEPTED
    ensures AllCallable(cfg, Redialled(cfg, layer, t, data, accepted))
    ensures StaleFlag(DoAll(NewConn(mtu), cfg, Redialled(cfg, layer, t, data, accepted)), Shut)
  {
    var c0 := NewConn(mtu);
    var c1 := StartConnect(c0, cfg, t).c;
    var c2 := OnDatagram(c1, cfg, data, [[ID_DISCONNECTION_NOTIFICATION]], t, 0).c;
    var c3 := Update(c2, cfg, layer, t).c;
    var c4 := StartConnect(c3, cfg, t).c;
    var last := [Timed(Datagram(data, [accepted]), t, 0)] + [];
    DoCons(c4, cfg, Timed(Datagram(data, [accepted]), t, 0), []);
    DoCons(c3, cfg, Timed(Start, t, 0), last);
    DoCons(c2, cfg, Timed(Tick(layer), t, 0), [Timed(Start, t, 0)] + last);
    DoCons(c1, cfg, Timed(Datagram(data, [[ID_DISCONNECTION_NOTIFICATION]]), t, 0),
           [Timed(Tick(layer), t, 0)] + ([Timed(Start, t, 0)] + last));
    DoCons(c0, cfg, Timed(Start, t, 0),
           [Timed(Datagram(data, [[ID_DISCONNECTION_NOTIFICATION]]), t, 0)]
           + ([Timed(Tick(layer), t, 0)] + ([Timed(Start, t, 0)] + last)));
    FirstCall(c0, cfg, layer, t, data);
    SecondCall(c3, cfg, t, data, accepted);
  }

  // ---------- the retry schedule ----------

  /** How many requests have been sent since the first. */
  function Position(c: Conn): nat {
    RETRANSMIT_COUNT * c.attempt + c.retransmits
  }

  ghost predicate Trying(c: Conn, cfg: Config) {
    c.state == CONNECTING && !cfg.isServer && c.retransmits < RETRANSMIT_COUNT
    && Position(c) < RETRANSMIT_COUNT * |cfg.sizes|
  }

  /** Request number k of an unanswered client. */
  function Scheduled(cfg: Config, k: nat): Bytes
    requires k < RETRANSMIT_COUNT * |cfg.sizes|
  {
    Request1(cfg.protocol, cfg.sizes[k / RETRANSMIT_COUNT])
  }

  datatype Beat = Beat(layer: Layer, now: real)

  /** Ticks and nothing else: the connection afterwards, the requests sent, and
      whether the handshake timeout struck. */
  function Unanswered(c: Conn, cfg: Config, beats: seq<Beat>): (Conn, seq<Bytes>, bool)
    decreases |beats|
  {
    if beats == [] || c.state != CONNECTING then (c, [], false)
    else if TimedOut(c, cfg, beats[0].now) then (Lost(c), [], true)
    else
      var first := Update(c, cfg, beats[0].layer, beats[0].now);
      var (c', ds, late) := Unanswered(first.c, cfg, beats[1..]);
      (c', first.datagrams + ds, late)
  }

  lemma NextTry(c: Conn, cfg: Config, layer: Layer, now: real)
    requires Trying(c, cfg) && !TimedOut(c, cfg, now)
    ensures var out := Update(c, cfg, layer, now);
      if !RetransmitDue(c, cfg, now) then out.datagrams == [] && out.c == c
      else if Position(c) + 1 < RETRANSMIT_COUNT * |cfg.sizes| then
        out.datagrams == [Scheduled(cfg, Position(c) + 1)] && Trying(out.c, cfg) && Position(out.c) == Position(c) + 1
      else out.datagrams == [] && out.c.state == DISCONNECTED && out.c.log == c.log + [Disconnect([])]
  {
    var k := Position(c) + 1;
    if c.retransmits + 1 == RETRANSMIT_COUNT {
      assert k == RETRANSMIT_COUNT * (c.attempt + 1);
    } else {
      assert k / RETRANSMIT_COUNT == c.attempt;
    }
  }

  /** c has sent the requests ds, the next ones of the schedule, on its way to
      c'; late says that the handshake timeout struck. */
  ghost predicate OnSchedule(c: Conn, cfg: Config, c': Conn, ds: seq<Bytes>, late: bool) {
    Position(c) + |ds| < RETRANSMIT_COUNT * |cfg.sizes|
    && (forall i :: 0 <= i < |ds| ==> ds[i] == Scheduled(cfg, Position(c) + 1 + i))
    && (c'.state == CONNECTING ==> Trying(c', cfg) && Position(c') == Position(c) + |ds|)
    && (c'.state != CONNECTING ==>
          c'.state == DISCONNECTED && (late || Position(c) + |ds| + 1 == RETRANSMIT_COUNT * |cfg.sizes|))
  }

  lemma ScheduleLater(c: Conn, cfg: Config, c1: Conn, c': Conn, ds: seq<Bytes>, late: bool)
    requires Position(c1) == Position(c) + 1 < RETRANSMIT_COUNT * |cfg.sizes| && OnSchedule(c1, cfg, c', ds, late)
    ensures OnSchedule(c, cfg, c', [Scheduled(cfg, Position(c) + 1)] + ds, late)
  {
  }

  /** An unanswered client sends each size exactly three times, in order: after
      k requests the next ones are numbers k + 1, k + 2, ...; it gives up only
      when all are sent, unless the handshake timeout strikes first. */
  lemma {:induction false} RetrySchedule(c: Conn, cfg: Config, beats: seq<Beat>)
    requires Trying(c, cfg)
    ensures var (c', ds, late) := Unanswered(c, cfg, beats); OnSchedule(c, cfg, c', ds, late)
    decreases |beats|
  {
    if beats != [] && !TimedOut(c, cfg, beats[0].now) {
      NextTry(c, cfg, beats[0].layer, beats[0].now);
      var first := Update(c, cfg, beats[0].layer, beats[0].now);
      var (c', ds, late) := Unanswered(first.c, cfg, beats[1..]);
      if first.c.state == CONNECTING {
        RetrySchedule(first.c, cfg, beats[1..]);
        if RetransmitDue(c, cfg, beats[0].now) {
          ScheduleLater(c, cfg, first.c, c', ds, late);
        } else {
          assert [] + ds == ds;
        }
      }
    }
  }

  /** From the start: request number 0 is the first, and the schedule follows. */
  lemma StartsSchedule(c: Conn, cfg: Config, now: real)
    requires cfg.sizes != [] && !cfg.isServer
    ensures var out := StartConnect(c, cfg, now);
      Trying(out.c, cfg) && Position(out.c) == 0 && out.datagrams == [Scheduled(cfg, 0)]
  {
  }

  /** How many of the ticks come more than the interval after the last request,
      counting each as a request. */
  function Dues(last: real, beats: seq<Beat>): nat
    decreases |beats|
  {
    if beats == [] then 0
    else if beats[0].now - last > RETRANSMIT_INTERVAL then 1 + Dues(beats[0].now, beats[1..])
    else Dues(last, beats[1..])
  }

  /** Requests not sent yet, with one more tick to give up. */
  function Remaining(c: Conn, cfg: Config): int {
    RETRANSMIT_COUNT * |cfg.sizes| - Position(c)
  }

  /** What becomes of an unanswered client that meets `due` due ticks. */
  ghost predicate Outcome(c: Conn, cfg: Config, due: nat, c': Conn, ds: seq<Bytes>, late: bool) {
    (c'.state == CONNECTING <==> !late && due < Remaining(c, cfg))
    && (c'.state == CONNECTING ==> c'.log == c.log)
    && (c'.state != CONNECTING ==> c'.state == DISCONNECTED && c'.log == c.log + [Disconnect([])])
    && (!late ==> |ds| == Min(due, Remaining(c, cfg) - 1))
  }

  lemma OutcomeLater(c: Conn, cfg: Config, c1: Conn, due: nat, c': Conn, ds: seq<Bytes>, late: bool)
    requires Position(c1) == Position(c) + 1 < RETRANSMIT_COUNT * |cfg.sizes| && c1.log == c.log
    requires Outcome(c1, cfg, due, c', ds, late)
    ensures Outcome(c, cfg, due + 1, c', [Scheduled(cfg, Position(c) + 1)] + ds, late)
  {
  }

  lemma NextKeeps(c: Conn, cfg: Config, layer: Layer, now: real)
    requires Trying(c, cfg) && !TimedOut(c, cfg, now) && RetransmitDue(c, cfg, now)
    ensures var c1 := Update(c, cfg, layer, now).c;
      c1.state == CONNECTING ==> c1.retransmitAt == now && c1.log == c.log
  {
  }

  /** The schedule ends: an unanswered client keeps trying exactly as long as
      neither the handshake timeout strikes nor the due ticks use up the
      requests that remain; then it is disconnected, with one DISCONNECT. */
  lemma {:induction false} ScheduleEnds(c: Conn, cfg: Config, beats: seq<Beat>)
    requires Trying(c, cfg)
    ensures var (c', ds, late) := Unanswered(c, cfg, beats);
      Outcome(c, cfg, Dues(c.retransmitAt, beats), c', ds, late)
    decreases |beats|
  {
    if beats != [] && !TimedOut(c, cfg, beats[0].now) {
      NextTry(c, cfg, beats[0].layer, beats[0].now);
      var first := Update(c, cfg, beats[0].layer, beats[0].now);
      var (c', ds, late) := Unanswered(first.c, cfg, beats[1..]);
      if !RetransmitDue(c, cfg, beats[0].now) {
        ScheduleEnds(c, cfg, beats[1..]);
        assert [] + ds == ds;
      } else if first.c.state == CONNECTING {
        NextKeeps(c, cfg, beats[0].layer, beats[0].now);
        ScheduleEnds(first.c, cfg, beats[1..]);
        OutcomeLater(c, cfg, first.c, Dues(beats[0].now, beats[1..]), c', ds, late);
      }
    }
  }

  /** From the dial on, unless answered or timed out: with n due ticks the
      client has sent min(n + 1, 3 * sizes) requests, each size three times in
      order, and it is disconnected exactly from n = 3 * sizes on. */
  lemma DialEnds(c: Conn, cfg: Config, now: real, beats: seq<Beat>)
    requires cfg.sizes != [] && !cfg.isServer
    ensures var dial := StartConnect(c, cfg, now);
      var (c', ds, late) := Unanswered(dial.c, cfg, beats);
      var all, n := dial.datagrams + ds, Dues(now, beats);
      (forall i :: 0 <= i < |all| ==> i < RETRANSMIT_COUNT * |cfg.sizes| && all[i] == Scheduled(cfg, i))
      && (!late ==> |all| == Min(n + 1, RETRANSMIT_COUNT * |cfg.sizes|))
      && (c'.state == CONNECTING <==> !late && n < RETRANSMIT_COUNT * |cfg.sizes|)
      && (c'.state != CONNECTING ==> c'.state == DISCONNECTED && c'.log == c.log + [Disconnect([])])
  {
    var dial := StartConnect(c, cfg, now);
    StartsSchedule(c, cfg, now);
    RetrySchedule(dial.c, cfg, beats);
    ScheduleEnds(dial.c, cfg, beats);
    var ds := Unanswered(dial.c, cfg, beats).1;
    forall i | 0 <= i < |dial.datagrams + ds|
      ensures i < RETRANSMIT_COUNT * |cfg.sizes| && (dial.datagrams + ds)[i] == Scheduled(cfg, i)
    {
      if i > 0 {
        assert (dial.datagrams + ds)[i] == ds[i - 1] == Scheduled(cfg, Position(dial.c) + 1 + (i - 1));
      }
    }
  }

  // ---------- one clean exchange ----------

  lemma BigHere(front: Bytes, v: nat, w: nat, back: Bytes)
    requires v < Pow256(w)
    ensures BigAt(front + BigEndian(v, w) + back, |front|, w) == Some((v, |front| + w))
  {
    var b := front + BigEndian(v, w) + back;
    assert b[|front|..|front| + w] == BigEndian(v, w);
    BigEndianValue(v, w);
  }

  lemma PaddingSize(n: int)
    ensures |Padding(n)| == Max(n, 0)
  {
  }

  /** The MTU the server proposes for a request of the given size. */
  function Proposed(server: Config, size: int): int {
    Min(Max(size, 18 + UDP_HEADER_SIZE), server.maxMtu)
  }

  lemma ServerProposes(s: Conn, server: Config, protocol: byte, size: int, now: real)
    requires protocol == server.protocol
    ensures OnRequest1(s, server, Request1(protocol, size), now)
            == Answer(s.(state := CONNECTING, start := now, lastRecv := now), Reply1(server.guid, Proposed(server, size)))
  {
    PaddingSize(size - UDP_HEADER_SIZE - 18);
    assert Request1(protocol, size)[17] == protocol;
  }

  /** The client takes the proposal exactly when it lies within its limits. */
  lemma ClientAccepts(c: Conn, client: Config, guid: nat, mtu: int)
    requires guid < Pow256(8) && 0 <= mtu < 0x10000
    ensures var out := OnReply1(c, client, Reply1(guid, mtu));
      if MtuAllowed(client, mtu) then
        out == Answer(WithMtu(c.(remoteGuid := guid), mtu), Request2(client.peer, mtu, client.guid))
      else out == Quiet(c.(remoteGuid := guid))
  {
    var front := [ID_OPEN_CONNECTION_REPLY_1] + MAGIC;
    var r := Reply1(guid, mtu);
    Pow256Table();
    BigHere(front, guid, 8, [0] + BigEndian(mtu, 2));
    assert r == front + BigEndian(guid, 8) + ([0] + BigEndian(mtu, 2));
    BigHere(front + BigEndian(guid, 8) + [0], mtu, 2, []);
    assert r == front + BigEndian(guid, 8) + [0] + BigEndian(mtu, 2) + [];
    assert r[25] == 0;
  }

  lemma ServerSettles(s: Conn, server: Config, peer: Bytes, mtu: int, guid: nat)
    requires guid < Pow256(8) && 0 <= mtu < 0x10000 && |peer| == ADDRESS_SIZE
    ensures var out := OnRequest2(s, server, Request2(peer, mtu, guid));
      if MtuAllowed(server, mtu) then
        out == Answer(WithMtu(s.(remoteGuid := guid), mtu), Reply2(server.guid, server.peer, mtu))
      else out == Quiet(s)
  {
    var front := [ID_OPEN_CONNECTION_REQUEST_2] + MAGIC + peer;
    var r := Request2(peer, mtu, guid);
    Pow256Table();
    BigHere(front, mtu, 2, BigEndian(guid, 8));
    BigHere(front + BigEndian(mtu, 2), guid, 8, []);
    assert r == front + BigEndian(mtu, 2) + BigEndian(guid, 8) + [];
  }

  lemma ClientSettles(c: Conn, client: Config, guid: nat, peer: Bytes, mtu: int, wall: nat)
    requires guid < Pow256(8) && 0 <= mtu < 0x10000 && |peer| == ADDRESS_SIZE
    ensures OnReply2(c, client, Reply2(guid, peer, mtu), wall)
            == Tell(WithMtu(c.(remoteGuid := guid), mtu), Sent(ConnectionRequest(client.guid, wall), RELIABLE))
  {
    var front := [ID_OPEN_CONNECTION_REPLY_2] + MAGIC;
    var r := Reply2(guid, peer, mtu);
    Pow256Table();
    BigHere(front, guid, 8, peer + BigEndian(mtu, 2) + [0]);
    assert r == front + BigEndian(guid, 8) + (peer + BigEndian(mtu, 2) + [0]);
    BigHere(front + BigEndian(guid, 8) + peer, mtu, 2, [0]);
    assert r == front + BigEndian(guid, 8) + peer + BigEndian(mtu, 2) + [0];
  }

  /** The four offline messages of one exchange leave both sides with the same
      MTU, and each with the other's identity. */
  lemma ExchangeAgrees(c: Conn, client: Config, s: Conn, server: Config, size: int, now: real, wall: nat)
    requires client.protocol == server.protocol && client.guid < Pow256(8) && server.guid < Pow256(8)
    requires |client.peer| == |server.peer| == ADDRESS_SIZE && 0 <= Proposed(server, size) < 0x10000
    requires MtuAllowed(client, Proposed(server, size)) && MtuAllowed(server, Proposed(server, size))
    ensures var s1 := OnRequest1(s, server, Request1(client.protocol, size), now);
      |s1.datagrams| == 1
      && var c1 := OnReply1(c, client, s1.datagrams[0]);
      |c1.datagrams| == 1
      && var s2 := OnRequest2(s1.c, server, c1.datagrams[0]);
      |s2.datagrams| == 1
      && var c2 := OnReply2(c1.c, client, s2.datagrams[0], wall);
      c2.c.mtu == s2.c.mtu == Proposed(server, size) && c2.c.layerMtu == s2.c.layerMtu == c2.c.mtu
      && c2.c.remoteGuid == server.guid && s2.c.remoteGuid == client.guid && s2.c.state == CONNECTING
  {
    var mtu := Proposed(server, size);
    ServerProposes(s, server, client.protocol, size, now);
    ClientAccepts(c, client, server.guid, mtu);
    var s1 := OnRequest1(s, server, Request1(client.protocol, size), now).c;
    ServerSettles(s1, server, client.peer, mtu, client.guid);
    ClientSettles(WithMtu(c.(remoteGuid := server.guid), mtu), client, server.guid, server.peer, mtu, wall);
  }

  // ---------- two parties ----------

  /** Everything each side has ever sent, offline datagrams and messages apart. */
  datatype World = World(client: Conn, server: Conn, fromClient: set<Bytes>, fromServer: set<Bytes>,
                         clientMsgs: set<Bytes>, serverMsgs: set<Bytes>)

  datatype Move = Move(byClient: bool, call: Call, now: real, wall: nat)

  /** An arriving datagram is an offline one the other side sent, or one of its
      layer's (bit 7 of the first byte set); messages come from the other side. */
  ghost predicate Honest(call: Call, datagrams: set<Bytes>, msgs: set<Bytes>) {
    call.Datagram? ==>
      (call.data in datagrams || (call.data != [] && call.data[0] >= 128))
      && forall i :: 0 <= i < |call.msgs| ==> call.msgs[i] in msgs
  }

  ghost predicate Allowed(w: World, client: Config, server: Config, m: Move) {
    if m.byClient then Callable(client, m.call) && Honest(m.call, w.fromServer, w.serverMsgs)
    else Callable(server, m.call) && Honest(m.call, w.fromClient, w.clientMsgs)
  }

  function Datas(sends: seq<Sent>): set<Bytes> {
    set s | s in sends :: s.data
  }

  ghost function Moved(w: World, client: Config, server: Config, m: Move): World
    requires Allowed(w, client, server, m)
  {
    if m.byClient then
      var out := Do(w.client, client, m.call, m.now, m.wall);
      w.(client := out.c, fromClient := w.fromClient + (set d | d in out.datagrams), clientMsgs := w.clientMsgs + Datas(out.sends))
    else
      var out := Do(w.server, server, m.call, m.now, m.wall);
      w.(server := out.c, fromServer := w.fromServer + (set d | d in out.datagrams), serverMsgs := w.serverMsgs + Datas(out.sends))
  }

  ghost predicate HasConnect(log: seq<Signal>) {
    exists i :: 0 <= i < |log| && log[i].Connect?
  }

  predicate IsNewIncoming(msg: Bytes) {
    msg != [] && msg[0] == ID_NEW_INCOMING_CONNECTION
  }

  /** The client announces itself only after its CONNECT, the server connects
      only on such an announcement. */
  ghost predicate HandshakeInv(w: World) {
    SignalInv(w.client) && SignalInv(w.server)
    && ((exists m <- w.clientMsgs :: IsNewIncoming(m)) ==> HasConnect(w.client.log))
    && (HasConnect(w.server.log) ==> HasConnect(w.client.log))
  }

  lemma {:induction false} OpenHasConnect(log: seq<Signal>)
    requires Open(log)
    ensures HasConnect(log)
  {
    var last := log[|log| - 1];
    if last.Receive? {
      OpenHasConnect(log[..|log| - 1]);
      var i :| 0 <= i < |log[..|log| - 1]| && log[..|log| - 1][i].Connect?;
      assert log[i].Connect?;
    } else {
      assert log[|log| - 1].Connect?;
    }
  }

  /** A call only adds to the log, and connects a server only on the client's announcement. */
  ghost predicate Added(c: Conn, c': Conn, isServer: bool, msgs: seq<Bytes>) {
    c.log <= c'.log
    && (isServer && HasConnect(c'.log) && !HasConnect(c.log) ==> exists i :: 0 <= i < |msgs| && IsNewIncoming(msgs[i]))
  }

  lemma NoConnectAdded(log: seq<Signal>, s: Signal)
    requires !s.Connect?
    ensures HasConnect(log + [s]) ==> HasConnect(log)
  {
    if HasConnect(log + [s]) {
      var i :| 0 <= i < |log + [s]| && (log + [s])[i].Connect?;
      assert log[i].Connect?;
    }
  }

  lemma MessageAdds(c: Conn, cfg: Config, msg: Bytes, now: real, wall: nat)
    ensures Added(c, OnMessage(c, cfg, msg, now, wall).c, cfg.isServer, [msg])
  {
    NoConnectAdded(c.log, Disconnect([]));
    NoConnectAdded(c.log, Receive(msg));
    assert [msg][0] == msg;
  }

  lemma {:induction false} MessagesAdd(c: Conn, cfg: Config, msgs: seq<Bytes>, now: real, wall: nat)
    ensures Added(c, OnMessages(c, cfg, msgs, now, wall).c, cfg.isServer, msgs)
    decreases |msgs|
  {
    if msgs != [] {
      var first := OnMessage(c, cfg, msgs[0], now, wall);
      MessageAdds(c, cfg, msgs[0], now, wall);
      if !first.raised {
        MessagesAdd(first.c, cfg, msgs[1..], now, wall);
        var last := OnMessages(first.c, cfg, msgs[1..], now, wall).c;
        if cfg.isServer && HasConnect(last.log) && !HasConnect(first.c.log) {
          var i :| 0 <= i < |msgs[1..]| && IsNewIncoming(msgs[1..][i]);
          assert msgs[i + 1] == msgs[1..][i];
        }
      }
    }
  }

  function MessagesOf(call: Call): seq<Bytes> {
    if call.Datagram? then call.msgs else []
  }

  lemma DatagramAdds(c: Conn, cfg: Config, data: Bytes, msgs: seq<Bytes>, now: real, wall: nat)
    ensures Added(c, OnDatagram(c, cfg, data, msgs, now, wall).c, cfg.isServer, msgs)
  {
    var c1 := c.(lastRecv := now);
    NoConnectAdded(c.log, Disconnect(data));
    MessagesAdd(c1, cfg, msgs, now, wall);
    if IsOffline(data) && c.state != CONNECTED {
      OfflineSignals(c1, cfg, data, now, wall);
    }
  }

  lemma CallAdds(c: Conn, cfg: Config, call: Call, now: real, wall: nat)
    requires Callable(cfg, call)
    ensures Added(c, Do(c, cfg, call, now, wall).c, cfg.isServer, MessagesOf(call))
  {
    NoConnectAdded(c.log, Disconnect([]));
    match call
    case Datagram(data, msgs) => DatagramAdds(c, cfg, data, msgs, now, wall);
    case Tick(layer) => TickAdds(c, cfg, layer, now);
    case _ =>
  }

  lemma TickAdds(c: Conn, cfg: Config, layer: Layer, now: real)
    ensures Added(c, Update(c, cfg, layer, now).c, cfg.isServer, [])
  {
    NoConnectAdded(c.log, Disconnect([]));
    var a := Pinged(Retransmitted(c, cfg, now).c, now).c;
    NoConnectAdded(a.log, Disconnect([]));
  }

  /** The announcements among what is handed to the layer. */
  ghost predicate Announces(sends: seq<Sent>) {
    exists i :: 0 <= i < |sends| && IsNewIncoming(sends[i].data)
  }

  lemma HasConnectGrows(log: seq<Signal>, log': seq<Signal>)
    requires HasConnect(log) && log <= log'
    ensures HasConnect(log')
  {
    var i :| 0 <= i < |log| && log[i].Connect?;
    assert log'[i].Connect?;
  }

  lemma MessageAnnounces(c: Conn, cfg: Config, msg: Bytes, now: real, wall: nat)
    ensures Announces(OnMessage(c, cfg, msg, now, wall).sends) ==> HasConnect(OnMessage(c, cfg, msg, now, wall).c.log)
  {
    assert (c.log + [Connect])[|c.log|].Connect?;
  }

  lemma {:induction false} MessagesAnnounce(c: Conn, cfg: Config, msgs: seq<Bytes>, now: real, wall: nat)
    ensures var out := OnMessages(c, cfg, msgs, now, wall);
      Announces(out.sends) ==> HasConnect(out.c.log)
    decreases |msgs|
  {
    if msgs != [] {
      var first := OnMessage(c, cfg, msgs[0], now, wall);
      MessageAnnounces(c, cfg, msgs[0], now, wall);
      if !first.raised {
        var rest := OnMessages(first.c, cfg, msgs[1..], now, wall);
        MessagesAnnounce(first.c, cfg, msgs[1..], now, wall);
        MessagesAdd(first.c, cfg, msgs[1..], now, wall);
        AnnounceSplit(first.sends, rest.sends);
        if HasConnect(first.c.log) {
          HasConnectGrows(first.c.log, rest.c.log);
        }
      }
    }
  }

  lemma AnnounceSplit(a: seq<Sent>, b: seq<Sent>)
    ensures Announces(a + b) ==> Announces(a) || Announces(b)
  {
    if Announces(a + b) {
      var i :| 0 <= i < |a + b| && IsNewIncoming((a + b)[i].data);
      if i < |a| {
        assert IsNewIncoming(a[i].data);
      } else {
        assert IsNewIncoming(b[i - |a|].data);
      }
    }
  }

  /** Whoever announces a connection has signalled CONNECT. */
  lemma CallAnnounces(c: Conn, cfg: Config, call: Call, now: real, wall: nat)
    requires SignalInv(c) && Callable(cfg, call)
    ensures var out := Do(c, cfg, call, now, wall);
      Announces(out.sends) ==> HasConnect(out.c.log)
  {
    match call
    case Datagram(data, msgs) =>
      MessagesAnnounce(c.(lastRecv := now), cfg, msgs, now, wall);
    case Send(_, _) =>
      if c.state == CONNECTED {
        OpenHasConnect(c.log);
      }
    case _ =>
  }

  lemma ClientMoves(w: World, client: Config, server: Config, m: Move)
    requires HandshakeInv(w) && m.byClient && Allowed(w, client, server, m)
    ensures HandshakeInv(Moved(w, client, server, m))
  {
    var out := Do(w.client, client, m.call, m.now, m.wall);
    CallSignals(w.client, client, m.call, m.now, m.wall);
    CallAdds(w.client, client, m.call, m.now, m.wall);
    CallAnnounces(w.client, client, m.call, m.now, m.wall);
    if HasConnect(w.client.log) {
      HasConnectGrows(w.client.log, out.c.log);
    }
    forall d | d in Datas(out.sends) && IsNewIncoming(d)
      ensures Announces(out.sends)
    {
      var s :| s in out.sends && s.data == d;
      var i :| 0 <= i < |out.sends| && out.sends[i] == s;
      assert IsNewIncoming(out.sends[i].data);
    }
  }

  lemma ServerMoves(w: World, client: Config, server: Config, m: Move)
    requires HandshakeInv(w) && server.isServer && !m.byClient && Allowed(w, client, server, m)
    ensures HandshakeInv(Moved(w, client, server, m))
  {
    var out := Do(w.server, server, m.call, m.now, m.wall);
    CallSignals(w.server, server, m.call, m.now, m.wall);
    CallAdds(w.server, server, m.call, m.now, m.wall);
    if HasConnect(out.c.log) && !HasConnect(w.server.log) {
      var i :| 0 <= i < |MessagesOf(m.call)| && IsNewIncoming(MessagesOf(m.call)[i]);
      assert m.call.msgs[i] in w.clientMsgs;
    }
  }

  ghost predicate AllAllowed(w: World, client: Config, server: Config, ms: seq<Move>)
    decreases |ms|
  {
    ms == [] || (Allowed(w, client, server, ms[0]) && AllAllowed(Moved(w, client, server, ms[0]), client, server, ms[1..]))
  }

  ghost function Play(w: World, client: Config, server: Config, ms: seq<Move>): World
    requires AllAllowed(w, client, server, ms)
    decreases |ms|
  {
    if ms == [] then w else Play(Moved(w, client, server, ms[0]), client, server, ms[1..])
  }

  lemma {:induction false} PlayKeeps(w: World, client: Config, server: Config, ms: seq<Move>)
    requires HandshakeInv(w) && server.isServer && AllAllowed(w, client, server, ms)
    ensures HandshakeInv(Play(w, client, server, ms))
    decreases |ms|
  {
    if ms != [] {
      if ms[0].byClient {
        ClientMoves(w, client, server, ms[0]);
      } else {
        ServerMoves(w, client, server, ms[0]);
      }
      PlayKeeps(Moved(w, client, server, ms[0]), client, server, ms[1..]);
    }
  }

  /** With one honest client and one server, over any loss, duplication and
      reordering, the server is CONNECTED only after the client has signalled CONNECT. */
  lemma ServerConnectsSecond(client: Config, server: Config, mtu: int, serverMtu: int, ms: seq<Move>)
    requires server.isServer
    requires AllAllowed(World(NewConn(mtu), NewConn(serverMtu), {}, {}, {}, {}), client, server, ms)
    ensures var w := Play(World(NewConn(mtu), NewConn(serverMtu), {}, {}, {}, {}), client, server, ms);
      w.server.state == CONNECTED || HasConnect(w.server.log) ==> HasConnect(w.client.log)
  {
    var w0 := World(NewConn(mtu), NewConn(serverMtu), {}, {}, {}, {});
    PlayKeeps(w0, client, server, ms);
    var w := Play(w0, client, server, ms);
    if w.server.state == CONNECTED {
      OpenHasConnect(w.server.log);
    }
  }
}
