/** What time does to an established connection: the timeout of a silent peer,
    pings, and the end of a disconnection (_connection.py:332-415). */
module ConnectionTime {
  import opened Types
  import opened ConnectionSpec
  import opened ConnectionRuns

  // ---------- when the peer was last heard ----------

  /** The time of the last datagram or dial among the calls. */
  function Heard(before: real, calls: seq<Timed>): real
    decreases |calls|
  {
    if calls == [] then before
    else Heard(if calls[0].call.Datagram? || calls[0].call.Start? then calls[0].now else before, calls[1..])
  }

  lemma {:induction false} MessagesHeard(c: Conn, cfg: Config, msgs: seq<Bytes>, now: real, wall: nat)
    requires c.lastRecv == now
    ensures OnMessages(c, cfg, msgs, now, wall).c.lastRecv == now
    decreases |msgs|
  {
    if msgs != [] {
      var first := OnMessage(c, cfg, msgs[0], now, wall);
      if !first.raised {
        MessagesHeard(first.c, cfg, msgs[1..], now, wall);
      }
    }
  }

  lemma CallHeard(c: Conn, cfg: Config, call: Call, now: real, wall: nat)
    requires Callable(cfg, call)
    ensures Do(c, cfg, call, now, wall).c.lastRecv == if call.Datagram? || call.Start? then now else c.lastRecv
  {
    if call.Datagram? {
      MessagesHeard(c.(lastRecv := now), cfg, call.msgs, now, wall);
    }
  }

  /** Every datagram, in every state, moves the time the peer was last heard to
      its own; a dial does too, and no other call. */
  lemma {:induction false} HeardOfRuns(c: Conn, cfg: Config, calls: seq<Timed>)
    requires AllCallable(cfg, calls)
    ensures DoAll(c, cfg, calls).lastRecv == Heard(c.lastRecv, calls)
    decreases |calls|
  {
    if calls != [] {
      CallHeard(c, cfg, calls[0].call, calls[0].now, calls[0].wall);
      assert forall i :: 0 <= i < |calls[1..]| ==> calls[1..][i] == calls[i + 1];
      HeardOfRuns(Do(c, cfg, calls[0].call, calls[0].now, calls[0].wall).c, cfg, calls[1..]);
    }
  }

  // ---------- the timeout ----------

  predicate Up(c: Conn) {
    c.state == CONNECTED || c.state == DISCONNECTING
  }

  /** One DISCONNECT, and nothing sent. */
  ghost predicate Dropped(c: Conn, out: Out) {
    out.c.state == DISCONNECTED && out.c.log == c.log + [Disconnect([])] && out.c.events == c.events + [Disconnect([])]
    && out.datagrams == [] && out.sends == []
  }

  /** A closing connection at a tick in time: one told goodbye waits for its
      ACKs to leave, one that said goodbye for its data. */
  ghost predicate Closing(c: Conn, layer: Layer, c': Conn) {
    if c.onAckSent then
      c'.log == c.log && c'.state == (if layer.acksPending then DISCONNECTING else DISCONNECTED)
    else if layer.dataPending then c'.log == c.log && c'.state == DISCONNECTING
    else c'.log == c.log + [Disconnect([])] && c'.state == DISCONNECTED
  }

  /** Whatever was called before, with the peer last heard at t > 0: a tick
      drops a connected or closing connection if now - t exceeds the timeout,
      with one DISCONNECT and nothing sent; otherwise a connected one stays, and
      a closing one ends as its goodbye asks. */
  lemma TimesOutExactly(mtu: int, cfg: Config, calls: seq<Timed>, layer: Layer, now: real)
    requires AllCallable(cfg, calls) && Up(DoAll(NewConn(mtu), cfg, calls))
    ensures var c, t := DoAll(NewConn(mtu), cfg, calls), Heard(0.0, calls);
      var out := Do(c, cfg, Tick(layer), now, 0);
      if t > 0.0 && now - t > cfg.timeout then Dropped(c, out)
      else if c.state == CONNECTED then out.c.state == CONNECTED && out.c.log == c.log
      else Closing(c, layer, out.c)
  {
    HeardOfRuns(NewConn(mtu), cfg, calls);
  }

  function BeatCalls(beats: seq<Beat>): (r: seq<Timed>)
    ensures |r| == |beats| && forall i :: 0 <= i < |r| ==> r[i] == Timed(Tick(beats[i].layer), beats[i].now, 0)
  {
    seq(|beats|, i requires 0 <= i < |beats| => Timed(Tick(beats[i].layer), beats[i].now, 0))
  }

  /** Some tick comes more than the timeout after t. */
  ghost predicate AnyLate(t: real, timeout: real, beats: seq<Beat>) {
    exists i :: 0 <= i < |beats| && beats[i].now - t > timeout
  }

  lemma LateLater(t: real, timeout: real, beats: seq<Beat>)
    requires beats != []
    ensures AnyLate(t, timeout, beats) <==> beats[0].now - t > timeout || AnyLate(t, timeout, beats[1..])
  {
    assert forall i :: 0 <= i < |beats[1..]| ==> beats[1..][i] == beats[i + 1];
    if AnyLate(t, timeout, beats) && !(beats[0].now - t > timeout) {
      var i :| 0 <= i < |beats| && beats[i].now - t > timeout;
      assert beats[1..][i - 1].now - t > timeout;
    }
  }

  lemma BeatsTail(beats: seq<Beat>)
    requires beats != []
    ensures BeatCalls(beats)[1..] == BeatCalls(beats[1..])
  {
  }

  /** Nothing happens any more to a connection that is down. */
  lemma {:induction false} StaysDown(c: Conn, cfg: Config, beats: seq<Beat>)
    requires c.state == DISCONNECTED
    ensures DoAll(c, cfg, BeatCalls(beats)) == c
    decreases |beats|
  {
    if beats != [] {
      BeatsTail(beats);
      StaysDown(c, cfg, beats[1..]);
    }
  }

  /** A connected side whose peer fell silent at t > 0 is connected after a run of
      ticks exactly if none came later than t + timeout; else it is down, with
      exactly one DISCONNECT. */
  lemma {:induction false} SilenceEnds(c: Conn, cfg: Config, beats: seq<Beat>)
    requires c.state == CONNECTED && c.lastRecv > 0.0
    ensures var c' := DoAll(c, cfg, BeatCalls(beats));
      if AnyLate(c.lastRecv, cfg.timeout, beats) then c'.state == DISCONNECTED && c'.log == c.log + [Disconnect([])]
      else c'.state == CONNECTED && c'.log == c.log
    decreases |beats|
  {
    if beats != [] {
      var out := Update(c, cfg, beats[0].layer, beats[0].now);
      BeatsTail(beats);
      LateLater(c.lastRecv, cfg.timeout, beats);
      if out.c.state == DISCONNECTED {
        StaysDown(out.c, cfg, beats[1..]);
      } else {
        SilenceEnds(out.c, cfg, beats[1..]);
      }
    }
  }

  // ---------- pings ----------

  /** The time of the last latency ping among what the calls send of themselves. */
  ghost function LastPinged(before: real, c: Conn, cfg: Config, calls: seq<Timed>): real
    requires AllCallable(cfg, calls)
    decreases |calls|
  {
    if calls == [] then before
    else
      var first := calls[0];
      var out := Do(c, cfg, first.call, first.now, first.wall);
      assert forall i :: 0 <= i < |calls[1..]| ==> calls[1..][i] == calls[i + 1];
      LastPinged(if !first.call.Send? && Ping(first.now, false) in out.sends then first.now else before,
                 out.c, cfg, calls[1..])
  }

  /** Only an announcement of the client makes a message answer with a ping. */
  lemma MessagePinged(c: Conn, cfg: Config, msg: Bytes, now: real, wall: nat)
    ensures var out := OnMessage(c, cfg, msg, now, wall);
      out.c.lastPing == if Ping(now, false) in out.sends then now else c.lastPing
  {
    assert Ping(now, false).data[0] == ID_CONNECTED_PING;
    if |msg| == 9 {
      assert ([ID_CONNECTED_PONG] + msg[1..9] + Stamp(now))[0] == ID_CONNECTED_PONG;
    }
  }

  lemma {:induction false} MessagesPinged(c: Conn, cfg: Config, msgs: seq<Bytes>, now: real, wall: nat)
    ensures var out := OnMessages(c, cfg, msgs, now, wall);
      out.c.lastPing == if Ping(now, false) in out.sends then now else c.lastPing
    decreases |msgs|
  {
    if msgs != [] {
      var first := OnMessage(c, cfg, msgs[0], now, wall);
      MessagePinged(c, cfg, msgs[0], now, wall);
      if !first.raised {
        MessagesPinged(first.c, cfg, msgs[1..], now, wall);
      }
    }
  }

  lemma DatagramPinged(c: Conn, cfg: Config, data: Bytes, msgs: seq<Bytes>, now: real, wall: nat)
    ensures var out := OnDatagram(c, cfg, data, msgs, now, wall);
      out.c.lastPing == if Ping(now, false) in out.sends then now else c.lastPing
  {
    MessagesPinged(c.(lastRecv := now), cfg, msgs, now, wall);
  }

  lemma CallPinged(c: Conn, cfg: Config, call: Call, now: real, wall: nat)
    requires Callable(cfg, call)
    ensures var out := Do(c, cfg, call, now, wall);
      out.c.lastPing == if !call.Send? && Ping(now, false) in out.sends then now else c.lastPing
  {
    if call.Datagram? {
      DatagramPinged(c, cfg, call.data, call.msgs, now, wall);
    }
  }

  lemma {:induction false} PingedOfRuns(c: Conn, cfg: Config, calls: seq<Timed>)
    requires AllCallable(cfg, calls)
    ensures DoAll(c, cfg, calls).lastPing == LastPinged(c.lastPing, c, cfg, calls)
    decreases |calls|
  {
    if calls != [] {
      CallPinged(c, cfg, calls[0].call, calls[0].now, calls[0].wall);
      assert forall i :: 0 <= i < |calls[1..]| ==> calls[1..][i] == calls[i + 1];
      PingedOfRuns(Do(c, cfg, calls[0].call, calls[0].now, calls[0].wall).c, cfg, calls[1..]);
    }
  }

  /** A tick in time sends a latency ping exactly if the last one left more than
      five seconds ago, before it a reliable one exactly if the last reliable send
      is more than half the timeout ago and nothing is outstanding, and nothing else. */
  lemma PingsExactly(mtu: int, cfg: Config, calls: seq<Timed>, layer: Layer, now: real)
    requires AllCallable(cfg, calls) && DoAll(NewConn(mtu), cfg, calls).state == CONNECTED
    requires !(Heard(0.0, calls) > 0.0 && now - Heard(0.0, calls) > cfg.timeout)
    ensures var out := Do(DoAll(NewConn(mtu), cfg, calls), cfg, Tick(layer), now, 0);
      var idle := layer.lastReliableSend > 0.0 && now - layer.lastReliableSend > cfg.timeout / 2.0 && layer.nothingTracked;
      var due := now - LastPinged(0.0, NewConn(mtu), cfg, calls) > 5.0;
      out.datagrams == []
      && out.sends == (if idle then [Sent([0] + Stamp(now), RELIABLE)] else [])
                      + (if due then [Sent([0] + Stamp(now), UNRELIABLE)] else [])
  {
    HeardOfRuns(NewConn(mtu), cfg, calls);
    PingedOfRuns(NewConn(mtu), cfg, calls);
  }
}
