/** What an established connection tells its user, how the handshake completes,
    and how a goodbye ends both sides (_connection.py:160-330, 440-860). */
module ConnectionTalk {
  import opened Types
  import opened BitSpec
  import opened WireFormat
  import opened ConnectionSpec
  import opened ConnectionRuns

  // ---------- messages while connected ----------

  /** Messages a connection keeps to itself: pings, pongs, the goodbye, and the
      probe for lost connections. */
  predicate Internal(msg: Bytes) {
    msg == [] || (|msg| == 9 && msg[0] == 0) || (|msg| == 17 && msg[0] == 3) || msg == [21] || msg == [4]
  }

  predicate IsPing(msg: Bytes) {
    |msg| == 9 && msg[0] == 0
  }

  /** One RECEIVE for each message of the user, in order, with its bytes. */
  function Received(msgs: seq<Bytes>): seq<Signal> {
    if msgs == [] then [] else (if Internal(msgs[0]) then [] else [Receive(msgs[0])]) + Received(msgs[1..])
  }

  /** One pong for each ping, with the time the ping carries and the time now. */
  function Pongs(msgs: seq<Bytes>, now: real): seq<Sent> {
    if msgs == [] then []
    else (if IsPing(msgs[0]) then [Sent([3] + msgs[0][1..] + Stamp(now), UNRELIABLE)] else []) + Pongs(msgs[1..], now)
  }

  function Goodbyes(msgs: seq<Bytes>): seq<Signal> {
    if msgs == [] then [] else (if msgs[0] == [21] then [Disconnect([])] else []) + Goodbyes(msgs[1..])
  }

  function Told(c: Conn, signals: seq<Signal>): Conn {
    c.(events := c.events + signals, log := c.log + signals)
  }

  lemma ToldTwice(c: Conn, a: seq<Signal>, b: seq<Signal>)
    ensures Told(Told(c, a), b) == Told(c, a + b)
  {
    assert c.log + a + b == c.log + (a + b) && c.events + a + b == c.events + (a + b);
  }

  lemma OneByte(msg: Bytes)
    requires |msg| == 1
    ensures msg == [msg[0]]
  {
  }

  lemma UserMessage(c: Conn, cfg: Config, msg: Bytes, now: real, wall: nat)
    requires c.state == CONNECTED && msg != [21]
    ensures OnMessage(c, cfg, msg, now, wall)
            == Out(Told(c, if Internal(msg) then [] else [Receive(msg)]), [],
                   if IsPing(msg) then [Sent([3] + msg[1..] + Stamp(now), UNRELIABLE)] else [], false)
  {
    assert Told(c, []) == c;
    if |msg| == 1 {
      OneByte(msg);
    }
    if |msg| == 9 {
      assert msg[1..9] == msg[1..];
    }
  }

  /** While connected, the user gets every message that is not internal, each once, in
      the order the layer completes them, and every ping is answered. */
  lemma {:induction false} UserMessages(c: Conn, cfg: Config, msgs: seq<Bytes>, now: real, wall: nat)
    requires c.state == CONNECTED && forall m <- msgs :: m != [21]
    ensures OnMessages(c, cfg, msgs, now, wall) == Out(Told(c, Received(msgs)), [], Pongs(msgs, now), false)
    decreases |msgs|
  {
    if msgs == [] {
      assert Told(c, []) == c;
    } else {
      assert msgs[0] in msgs && forall m <- msgs[1..] :: m in msgs;
      UserMessage(c, cfg, msgs[0], now, wall);
      var first := if Internal(msgs[0]) then [] else [Receive(msgs[0])];
      UserMessages(Told(c, first), cfg, msgs[1..], now, wall);
      ToldTwice(c, first, Received(msgs[1..]));
    }
  }

  /** A closing connection that has been told goodbye, or is by these messages. */
  function Closing(c: Conn, msgs: seq<Bytes>): Conn {
    Told(c, Goodbyes(msgs)).(onAckSent := c.onAckSent || Goodbyes(msgs) != [])
  }

  lemma LateMessage(c: Conn, cfg: Config, msg: Bytes, now: real, wall: nat)
    requires c.state == DISCONNECTING
    ensures OnMessage(c, cfg, msg, now, wall)
            == Out(Told(c, if msg == [21] then [Disconnect([])] else []).(onAckSent := c.onAckSent || msg == [21]), [],
                   if IsPing(msg) then [Sent([3] + msg[1..] + Stamp(now), UNRELIABLE)] else [], false)
  {
    assert Told(c, []) == c;
    if |msg| == 1 {
      OneByte(msg);
    }
    if |msg| == 9 {
      assert msg[1..9] == msg[1..];
    }
  }

  /** While a connection closes, the user gets no message any more; pings are
      still answered, and a goodbye still signals DISCONNECT. */
  lemma {:induction false} LateMessages(c: Conn, cfg: Config, msgs: seq<Bytes>, now: real, wall: nat)
    requires c.state == DISCONNECTING
    ensures OnMessages(c, cfg, msgs, now, wall) == Out(Closing(c, msgs), [], Pongs(msgs, now), false)
    decreases |msgs|
  {
    if msgs == [] {
      assert Told(c, []) == c;
    } else {
      LateMessage(c, cfg, msgs[0], now, wall);
      var first := if msgs[0] == [21] then [Disconnect([])] else [];
      LateMessages(Told(c, first).(onAckSent := c.onAckSent || msgs[0] == [21]), cfg, msgs[1..], now, wall);
      ToldTwice(c, first, Goodbyes(msgs[1..]));
    }
  }

  /** And every datagram is still the layer's. */
  lemma DatagramWhileClosing(c: Conn, cfg: Config, data: Bytes, msgs: seq<Bytes>, now: real, wall: nat)
    requires c.state == DISCONNECTING
    ensures OnDatagram(c, cfg, data, msgs, now, wall)
            == Out(Closing(c.(lastRecv := now), msgs), [], Pongs(msgs, now), false)
  {
    LateMessages(c.(lastRecv := now), cfg, msgs, now, wall);
  }

  lemma {:induction false} MessagesJoin(c: Conn, cfg: Config, a: seq<Bytes>, b: seq<Bytes>, now: real, wall: nat)
    requires !OnMessages(c, cfg, a, now, wall).raised
    ensures OnMessages(c, cfg, a + b, now, wall)
            == Then(OnMessages(c, cfg, a, now, wall), OnMessages(OnMessages(c, cfg, a, now, wall).c, cfg, b, now, wall))
    decreases |a|
  {
    if a == [] {
      assert a + b == b;
      var out := OnMessages(c, cfg, b, now, wall);
      assert [] + out.datagrams == out.datagrams && [] + out.sends == out.sends;
    } else {
      assert (a + b)[1..] == a[1..] + b && (a + b)[0] == a[0];
      var first := OnMessage(c, cfg, a[0], now, wall);
      MessagesJoin(first.c, cfg, a[1..], b, now, wall);
      var rest := OnMessages(first.c, cfg, a[1..], now, wall);
      ThenJoins(first, rest, OnMessages(rest.c, cfg, b, now, wall));
    }
  }

  lemma ThenJoins(x: Out, y: Out, z: Out)
    ensures Then(x, Then(y, z)) == Then(Then(x, y), z)
  {
    assert x.datagrams + (y.datagrams + z.datagrams) == x.datagrams + y.datagrams + z.datagrams;
    assert x.sends + (y.sends + z.sends) == x.sends + y.sends + z.sends;
  }

  lemma GoodbyeMessage(c: Conn, cfg: Config, now: real, wall: nat)
    ensures OnMessage(c, cfg, [21], now, wall)
            == Quiet(Told(c, [Disconnect([])]).(state := DISCONNECTING, onAckSent := true))
  {
  }

  /** A goodbye among the messages of a datagram splits them: what comes before
      it reaches the user, one DISCONNECT follows, nothing behind it does. */
  lemma GoodbyeCuts(c: Conn, cfg: Config, before: seq<Bytes>, after: seq<Bytes>, now: real, wall: nat)
    requires c.state == CONNECTED && (forall m <- before :: m != [21]) && forall m <- after :: m != [21]
    ensures OnMessages(c, cfg, before + ([[21]] + after), now, wall).c
            == Told(c, Received(before) + [Disconnect([])]).(state := DISCONNECTING, onAckSent := true)
  {
    var c1 := Told(c, Received(before));
    UserMessages(c, cfg, before, now, wall);
    MessagesJoin(c, cfg, before, [[21]] + after, now, wall);
    GoodbyeMessage(c1, cfg, now, wall);
    var c2 := Told(c1, [Disconnect([])]).(state := DISCONNECTING, onAckSent := true);
    assert ([[21 as byte]] + after)[0] == [21] && ([[21 as byte]] + after)[1..] == after;
    LateMessages(c2, cfg, after, now, wall);
    NoGoodbyes(after);
    assert Told(c2, []) == c2;
    ToldTwice(c, Received(before), [Disconnect([])]);
  }

  lemma {:induction false} NoGoodbyes(msgs: seq<Bytes>)
    requires forall m <- msgs :: m != [21]
    ensures Goodbyes(msgs) == []
  {
    if msgs != [] {
      assert msgs[0] in msgs && forall m <- msgs[1..] :: m in msgs;
      NoGoodbyes(msgs[1..]);
    }
  }

  /** In an established connection every datagram is the layer's, whatever its
      bytes look like: no handshake message or rejection is heard any more. */
  lemma DatagramWhileConnected(c: Conn, cfg: Config, data: Bytes, msgs: seq<Bytes>, now: real, wall: nat)
    requires c.state == CONNECTED && forall m <- msgs :: m != [21]
    ensures OnDatagram(c, cfg, data, msgs, now, wall)
            == Out(Told(c.(lastRecv := now), Received(msgs)), [], Pongs(msgs, now), false)
  {
    UserMessages(c.(lastRecv := now), cfg, msgs, now, wall);
  }

  // ---------- what the user polls ----------

  /** The signals the polls of a run return, in order. */
  ghost function Polled(c: Conn, cfg: Config, calls: seq<Timed>): seq<Signal>
    requires AllCallable(cfg, calls)
    decreases |calls|
  {
    if calls == [] then []
    else
      var first := calls[0];
      assert forall i :: 0 <= i < |calls[1..]| ==> calls[1..][i] == calls[i + 1];
      (if first.call.PollEvents? then c.events else [])
      + Polled(Do(c, cfg, first.call, first.now, first.wall).c, cfg, calls[1..])
  }

  /** Signals raised are both logged and kept for the next poll. */
  ghost predicate Raises(c: Conn, c': Conn) {
    exists added: seq<Signal> :: c'.log == c.log + added && c'.events == c.events + added
  }

  lemma RaisesNone(c: Conn, c': Conn)
    requires c'.log == c.log && c'.events == c.events
    ensures Raises(c, c')
  {
    assert c'.log == c.log + [] && c'.events == c.events + [];
  }

  lemma RaisesOne(c: Conn, c': Conn, s: Signal)
    requires c'.log == c.log + [s] && c'.events == c.events + [s]
    ensures Raises(c, c')
  {
  }

  lemma RaisesBoth(a: Conn, b: Conn, c: Conn)
    requires Raises(a, b) && Raises(b, c)
    ensures Raises(a, c)
  {
    var x: seq<Signal> :| b.log == a.log + x && b.events == a.events + x;
    var y: seq<Signal> :| c.log == b.log + y && c.events == b.events + y;
    assert c.log == a.log + (x + y) && c.events == a.events + (x + y);
  }

  lemma MessageRaises(c: Conn, cfg: Config, msg: Bytes, now: real, wall: nat)
    ensures Raises(c, OnMessage(c, cfg, msg, now, wall).c)
  {
    var c' := OnMessage(c, cfg, msg, now, wall).c;
    if c'.log == c.log {
      RaisesNone(c, c');
    } else {
      RaisesOne(c, c', c'.log[|c.log|]);
    }
  }

  lemma {:induction false} MessagesRaise(c: Conn, cfg: Config, msgs: seq<Bytes>, now: real, wall: nat)
    ensures Raises(c, OnMessages(c, cfg, msgs, now, wall).c)
    decreases |msgs|
  {
    if msgs == [] {
      RaisesNone(c, c);
    } else {
      var first := OnMessage(c, cfg, msgs[0], now, wall);
      MessageRaises(c, cfg, msgs[0], now, wall);
      if !first.raised {
        MessagesRaise(first.c, cfg, msgs[1..], now, wall);
        RaisesBoth(c, first.c, OnMessages(first.c, cfg, msgs[1..], now, wall).c);
      }
    }
  }

  lemma OfflineRaises(c: Conn, cfg: Config, data: Bytes, now: real, wall: nat)
    requires IsOffline(data)
    ensures Raises(c, OnOffline(c, cfg, data, now, wall).c)
  {
    RaisesNone(c, OnOffline(c, cfg, data, now, wall).c);
  }

  lemma DatagramRaises(c: Conn, cfg: Config, data: Bytes, msgs: seq<Bytes>, now: real, wall: nat)
    ensures Raises(c, OnDatagram(c, cfg, data, msgs, now, wall).c)
  {
    var c1 := c.(lastRecv := now);
    RaisesNone(c, c1);
    MessagesRaise(c1, cfg, msgs, now, wall);
    RaisesBoth(c, c1, OnMessages(c1, cfg, msgs, now, wall).c);
    if IsOffline(data) {
      OfflineRaises(c1, cfg, data, now, wall);
      RaisesBoth(c, c1, OnOffline(c1, cfg, data, now, wall).c);
    }
    RaisesOne(c, Signalled(c1, Disconnect(data)).(state := DISCONNECTED), Disconnect(data));
  }

  lemma RetransmittedRaises(c: Conn, cfg: Config, now: real)
    ensures Raises(c, Retransmitted(c, cfg, now).c)
  {
    var c' := Retransmitted(c, cfg, now).c;
    if c'.log == c.log {
      RaisesNone(c, c');
    } else {
      RaisesOne(c, c', Disconnect([]));
    }
  }

  lemma ClosedRaises(c: Conn, layer: Layer)
    ensures Raises(c, Closed(c, layer))
  {
    if Closed(c, layer).log == c.log {
      RaisesNone(c, Closed(c, layer));
    } else {
      RaisesOne(c, Closed(c, layer), Disconnect([]));
    }
  }

  lemma TickRaises(c: Conn, cfg: Config, layer: Layer, now: real)
    ensures Raises(c, Update(c, cfg, layer, now).c)
  {
    RaisesOne(c, Lost(c), Disconnect([]));
    var a := Retransmitted(c, cfg, now).c;
    var b := Pinged(a, now).c;
    RetransmittedRaises(c, cfg, now);
    RaisesNone(a, b);
    RaisesBoth(c, a, b);
    ClosedRaises(b, layer);
    RaisesBoth(c, b, Closed(b, layer));
  }

  lemma CallRaises(c: Conn, cfg: Config, call: Call, now: real, wall: nat)
    requires Callable(cfg, call) && !call.PollEvents?
    ensures Raises(c, Do(c, cfg, call, now, wall).c)
  {
    var c' := Do(c, cfg, call, now, wall).c;
    if call.Datagram? {
      DatagramRaises(c, cfg, call.data, call.msgs, now, wall);
    } else if call.Tick? {
      TickRaises(c, cfg, call.layer, now);
    } else {
      RaisesNone(c, c');
    }
  }

  /** In every run of a new connection the signals polled so far, followed by
      those still pending, are all signals raised, in order, each once. */
  lemma PollsOfRuns(mtu: int, cfg: Config, calls: seq<Timed>)
    requires AllCallable(cfg, calls)
    ensures var c := DoAll(NewConn(mtu), cfg, calls);
      c.log == Polled(NewConn(mtu), cfg, calls) + c.events
  {
    PollsFrom(NewConn(mtu), cfg, calls, []);
  }

  lemma {:induction false} PollsFrom(c: Conn, cfg: Config, calls: seq<Timed>, before: seq<Signal>)
    requires AllCallable(cfg, calls) && c.log == before + c.events
    ensures DoAll(c, cfg, calls).log == before + Polled(c, cfg, calls) + DoAll(c, cfg, calls).events
    decreases |calls|
  {
    if calls == [] {
      assert before + [] == before;
    } else {
      var first := calls[0];
      var c1 := Do(c, cfg, first.call, first.now, first.wall).c;
      assert forall i :: 0 <= i < |calls[1..]| ==> calls[1..][i] == calls[i + 1];
      if first.call.PollEvents? {
        assert c1.log == (before + c.events) + [];
        PollsFrom(c1, cfg, calls[1..], before + c.events);
        assert before + c.events + Polled(c1, cfg, calls[1..]) == before + (c.events + Polled(c1, cfg, calls[1..]));
      } else {
        CallRaises(c, cfg, first.call, first.now, first.wall);
        var added: seq<Signal> :| c1.log == c.log + added && c1.events == c.events + added;
        assert before + c.events + added == before + (c.events + added);
        PollsFrom(c1, cfg, calls[1..], before);
        assert [] + Polled(c1, cfg, calls[1..]) == Polled(c1, cfg, calls[1..]);
      }
    }
  }

  // ---------- parameters ----------

  /** MTU and identity do not change while the connection is up. */
  predicate Settled(c: Conn, c': Conn) {
    c'.mtu == c.mtu && c'.layerMtu == c.layerMtu && c'.remoteGuid == c.remoteGuid
  }

  predicate Up(c: Conn) {
    c.state == CONNECTED || c.state == DISCONNECTING
  }

  lemma {:induction false} MessagesSettled(c: Conn, cfg: Config, msgs: seq<Bytes>, now: real, wall: nat)
    requires Up(c)
    ensures Up(OnMessages(c, cfg, msgs, now, wall).c) && Settled(c, OnMessages(c, cfg, msgs, now, wall).c)
    decreases |msgs|
  {
    if msgs != [] {
      var first := OnMessage(c, cfg, msgs[0], now, wall);
      if !first.raised {
        MessagesSettled(first.c, cfg, msgs[1..], now, wall);
      }
    }
  }

  lemma CallSettled(c: Conn, cfg: Config, call: Call, now: real, wall: nat)
    requires Up(c) && Callable(cfg, call)
    ensures Settled(c, Do(c, cfg, call, now, wall).c)
  {
    if call.Datagram? {
      MessagesSettled(c.(lastRecv := now), cfg, call.msgs, now, wall);
    }
  }

  /** The connection is up before every call. */
  ghost predicate StaysUp(c: Conn, cfg: Config, calls: seq<Timed>)
    requires AllCallable(cfg, calls)
    decreases |calls|
  {
    calls == []
    || (Up(c) && AllCallable(cfg, calls[1..])
        && StaysUp(Do(c, cfg, calls[0].call, calls[0].now, calls[0].wall).c, cfg, calls[1..]))
  }

  /** Whatever arrives, an established connection keeps the MTU and the identity
      agreed on until it is down. */
  lemma {:induction false} SettledOnceUp(c: Conn, cfg: Config, calls: seq<Timed>)
    requires AllCallable(cfg, calls) && StaysUp(c, cfg, calls)
    ensures Settled(c, DoAll(c, cfg, calls))
    decreases |calls|
  {
    if calls != [] {
      CallSettled(c, cfg, calls[0].call, calls[0].now, calls[0].wall);
      SettledOnceUp(Do(c, cfg, calls[0].call, calls[0].now, calls[0].wall).c, cfg, calls[1..]);
    }
  }

  // ---------- the rest of the handshake ----------

  /** The field of width w of a message begins where its front ends. */
  lemma FieldHere(front: Bytes, field: Bytes, back: Bytes)
    ensures (front + field + back)[|front|..|front| + |field|] == field
  {
  }

  /** The server answers a connection request by an acceptance that repeats the
      time in it, and learns the client's identity. */
  lemma RequestAccepted(s: Conn, server: Config, guid: nat, time: nat, now: real, wall: nat)
    requires s.state == CONNECTING && server.isServer && guid < Pow256(8)
    ensures OnMessage(s, server, ConnectionRequest(guid, time), now, wall)
            == Tell(s.(remoteGuid := guid), Sent(Accepted(server, BigEndian(time, 8), wall), RELIABLE_ORDERED))
  {
    RequestFields(guid, time);
  }

  lemma RequestFields(guid: nat, time: nat)
    requires guid < Pow256(8)
    ensures var msg := ConnectionRequest(guid, time);
      |msg| == 18 && msg[0] == ID_CONNECTION_REQUEST && BigAt(msg, 1, 8) == Some((guid, 9)) && msg[9..17] == BigEndian(time, 8)
  {
    var msg := ConnectionRequest(guid, time);
    BigHere([ID_CONNECTION_REQUEST], guid, 8, BigEndian(time, 8) + [0]);
    assert msg == [ID_CONNECTION_REQUEST] + BigEndian(guid, 8) + (BigEndian(time, 8) + [0]);
    FieldHere([ID_CONNECTION_REQUEST] + BigEndian(guid, 8), BigEndian(time, 8), [0]);
  }

  /** The client is connected by an acceptance, and answers it with the server's time. */
  lemma AcceptanceConnects(c: Conn, client: Config, server: Config, clientTime: Bytes, time: nat, now: real, wall: nat)
    requires c.state == CONNECTING && !client.isServer && |clientTime| == 8 && |server.peer| == ADDRESS_SIZE
    requires |server.locals| == ADDRESS_SIZE * client.internalIds
    ensures OnMessage(c, client, Accepted(server, clientTime, time), now, wall)
            == Tell(Told(c.(state := CONNECTED), [Connect]), Sent(NewIncoming(client, BigEndian(time, 8), wall), RELIABLE_ORDERED))
  {
    var msg := Accepted(server, clientTime, time);
    var front := [ID_CONNECTION_REQUEST_ACCEPTED] + server.peer + [0, 0] + server.locals + clientTime;
    FieldHere(front, BigEndian(time, 8), []);
    assert msg == front + BigEndian(time, 8) + [];
    assert msg[0] == ID_CONNECTION_REQUEST_ACCEPTED;
  }

  /** The server is connected by the client's announcement, and pings. */
  lemma AnnouncementConnects(s: Conn, server: Config, client: Config, replyTime: Bytes, time: nat, now: real, wall: nat)
    requires s.state == CONNECTING && server.isServer && |replyTime| == 8 && |client.peer| == ADDRESS_SIZE
    requires |client.locals| == ADDRESS_SIZE * server.internalIds
    ensures OnMessage(s, server, NewIncoming(client, replyTime, time), now, wall)
            == Tell(Told(s.(state := CONNECTED, lastRecv := now, lastPing := now), [Connect]), Ping(now, false))
  {
    assert NewIncoming(client, replyTime, time)[0] == ID_NEW_INCOMING_CONNECTION;
  }

  /** Both hosts describe themselves in the form the other expects. */
  predicate Compatible(client: Config, server: Config) {
    !client.isServer && server.isServer && client.protocol == server.protocol
    && client.guid < Pow256(8) && server.guid < Pow256(8) && |client.peer| == |server.peer| == ADDRESS_SIZE
    && |server.locals| == ADDRESS_SIZE * client.internalIds && |client.locals| == ADDRESS_SIZE * server.internalIds
  }

  predicate Early(c: Conn) {
    c.state == DISCONNECTED || c.state == CONNECTING
  }

  /** A handshake datagram of 17 bytes or more reaches its handler on the side it is meant for. */
  lemma OfflineReaches(c: Conn, cfg: Config, data: Bytes, now: real, wall: nat)
    requires Early(c) && |data| >= 17 && data[0] in [5, 6, 7, 8] && data[1..17] == MAGIC
    ensures var out, heard := OnDatagram(c, cfg, data, [], now, wall), c.(lastRecv := now);
      (cfg.isServer && data[0] == 5 ==> out == OnRequest1(heard, cfg, data, now))
      && (!cfg.isServer && data[0] == 6 ==> out == OnReply1(heard, cfg, data))
      && (cfg.isServer && data[0] == 7 ==> out == OnRequest2(heard, cfg, data))
      && (!cfg.isServer && data[0] == 8 ==> out == OnReply2(heard, cfg, data, wall))
      && (cfg.isServer == (data[0] == 6 || data[0] == 8) ==> out == Quiet(heard))
  {
  }

  lemma MagicBehind(id: byte, rest: Bytes)
    ensures var data := [id] + MAGIC + rest; |data| >= 17 && data[0] == id && data[1..17] == MAGIC
  {
  }

  /** A datagram of a handshake, by its first byte. */
  predicate Offline(data: Bytes, id: byte) {
    |data| >= 17 && data[0] == id && data[1..17] == MAGIC
  }

  lemma Request1Offline(protocol: byte, size: int)
    ensures Offline(Request1(protocol, size), 5)
  {
    var rest := [protocol] + Padding(size - UDP_HEADER_SIZE - 18);
    MagicBehind(5, rest);
    assert Request1(protocol, size) == [5] + MAGIC + rest;
  }

  lemma Reply1Offline(guid: nat, mtu: int)
    ensures Offline(Reply1(guid, mtu), 6)
  {
    var rest := BigEndian(guid, 8) + [0] + BigEndian(mtu, 2);
    MagicBehind(6, rest);
    assert Reply1(guid, mtu) == [6] + MAGIC + rest;
  }

  lemma Request2Offline(peer: Bytes, mtu: int, guid: nat)
    ensures Offline(Request2(peer, mtu, guid), 7)
  {
    var rest := peer + BigEndian(mtu, 2) + BigEndian(guid, 8);
    MagicBehind(7, rest);
    assert Request2(peer, mtu, guid) == [7] + MAGIC + rest;
  }

  lemma Reply2Offline(guid: nat, peer: Bytes, mtu: int)
    ensures Offline(Reply2(guid, peer, mtu), 8)
  {
    var rest := BigEndian(guid, 8) + peer + BigEndian(mtu, 2) + [0];
    MagicBehind(8, rest);
    assert Reply2(guid, peer, mtu) == [8] + MAGIC + rest;
  }

  /** One message the layer completes with a datagram of its own. */
  lemma LayerMessage(c: Conn, cfg: Config, data: Bytes, msg: Bytes, now: real, wall: nat)
    requires c.state == CONNECTING && FromLayer(data)
    ensures var out := OnMessage(c.(lastRecv := now), cfg, msg, now, wall);
      !out.raised ==> OnDatagram(c, cfg, data, [msg], now, wall) == out
  {
    var c1 := c.(lastRecv := now);
    var first := OnMessage(c1, cfg, msg, now, wall);
    assert [msg][1..] == [] && OnMessages(first.c, cfg, [], now, wall) == Quiet(first.c);
    assert OnDatagram(c, cfg, data, [msg], now, wall) == OnMessages(c1, cfg, [msg], now, wall);
    assert first.datagrams + [] == first.datagrams && first.sends + [] == first.sends;
  }

  /** The four offline datagrams, each fed to the other side. */
  lemma OfflineExchange(c: Conn, client: Config, s: Conn, server: Config, size: int, now: real, wall: nat)
    requires Compatible(client, server) && c.state == CONNECTING && Early(s) && 0 <= Proposed(server, size) < 0x10000
    requires MtuAllowed(client, Proposed(server, size)) && MtuAllowed(server, Proposed(server, size))
    ensures var mtu := Proposed(server, size);
      var s1 := s.(lastRecv := now, state := CONNECTING, start := now);
      var c1 := WithMtu(c.(lastRecv := now, remoteGuid := server.guid), mtu);
      OnDatagram(s, server, Request1(client.protocol, size), [], now, wall) == Answer(s1, Reply1(server.guid, mtu))
      && OnDatagram(c, client, Reply1(server.guid, mtu), [], now, wall) == Answer(c1, Request2(client.peer, mtu, client.guid))
      && OnDatagram(s1, server, Request2(client.peer, mtu, client.guid), [], now, wall)
         == Answer(WithMtu(s1.(remoteGuid := client.guid), mtu), Reply2(server.guid, server.peer, mtu))
      && OnDatagram(c1, client, Reply2(server.guid, server.peer, mtu), [], now, wall)
         == Tell(c1, Sent(ConnectionRequest(client.guid, wall), RELIABLE))
  {
    var mtu := Proposed(server, size);
    var s1 := s.(lastRecv := now, state := CONNECTING, start := now);
    var c1 := WithMtu(c.(lastRecv := now, remoteGuid := server.guid), mtu);
    Request1Offline(client.protocol, size);
    Reply1Offline(server.guid, mtu);
    Request2Offline(client.peer, mtu, client.guid);
    Reply2Offline(server.guid, server.peer, mtu);
    OfflineReaches(s, server, Request1(client.protocol, size), now, wall);
    ServerProposes(s.(lastRecv := now), server, client.protocol, size, now);
    OfflineReaches(c, client, Reply1(server.guid, mtu), now, wall);
    ClientAccepts(c.(lastRecv := now), client, server.guid, mtu);
    OfflineReaches(s1, server, Request2(client.peer, mtu, client.guid), now, wall);
    ServerSettles(s1, server, client.peer, mtu, client.guid);
    OfflineReaches(c1, client, Reply2(server.guid, server.peer, mtu), now, wall);
    ClientSettles(c1, client, server.guid, server.peer, mtu, wall);
  }

  /** The three messages that follow, each completed by the other side's layer. */
  lemma OnlineExchange(c: Conn, client: Config, s: Conn, server: Config, data: Bytes, now: real, wall: nat)
    requires Compatible(client, server) && c.state == CONNECTING && s.state == CONNECTING && FromLayer(data)
    requires c.lastRecv == now && s.lastRecv == now
    ensures var s1 := s.(remoteGuid := client.guid);
      var accepted := Accepted(server, BigEndian(wall, 8), wall);
      var announced := NewIncoming(client, BigEndian(wall, 8), wall);
      OnDatagram(s, server, data, [ConnectionRequest(client.guid, wall)], now, wall)
        == Tell(s1, Sent(accepted, RELIABLE_ORDERED))
      && OnDatagram(c, client, data, [accepted], now, wall)
         == Tell(Told(c.(state := CONNECTED), [Connect]), Sent(announced, RELIABLE_ORDERED))
      && OnDatagram(s1, server, data, [announced], now, wall)
         == Tell(Told(s1.(state := CONNECTED, lastPing := now), [Connect]), Ping(now, false))
  {
    var s1 := s.(remoteGuid := client.guid);
    RequestAccepted(s, server, client.guid, wall, now, wall);
    LayerMessage(s, server, data, ConnectionRequest(client.guid, wall), now, wall);
    AcceptanceConnects(c, client, server, BigEndian(wall, 8), wall, now, wall);
    LayerMessage(c, client, data, Accepted(server, BigEndian(wall, 8), wall), now, wall);
    AnnouncementConnects(s1, server, client, BigEndian(wall, 8), wall, now, wall);
    LayerMessage(s1, server, data, NewIncoming(client, BigEndian(wall, 8), wall), now, wall);
  }

  /** The seven messages of a clean handshake, each as a datagram fed to the other
      side, leave both connected, with one CONNECT each, the same MTU, and the
      identity of the other. */
  lemma HandshakeCompletes(c: Conn, client: Config, s: Conn, server: Config, size: int, data: Bytes, now: real, wall: nat)
    requires Compatible(client, server) && c.state == CONNECTING && Early(s) && FromLayer(data)
    requires 0 <= Proposed(server, size) < 0x10000
    requires MtuAllowed(client, Proposed(server, size)) && MtuAllowed(server, Proposed(server, size))
    ensures var s1 := OnDatagram(s, server, Request1(client.protocol, size), [], now, wall);
      |s1.datagrams| == 1
      && var c1 := OnDatagram(c, client, s1.datagrams[0], [], now, wall);
      |c1.datagrams| == 1
      && var s2 := OnDatagram(s1.c, server, c1.datagrams[0], [], now, wall);
      |s2.datagrams| == 1
      && var c2 := OnDatagram(c1.c, client, s2.datagrams[0], [], now, wall);
      |c2.sends| == 1
      && var s3 := OnDatagram(s2.c, server, data, [c2.sends[0].data], now, wall);
      |s3.sends| == 1
      && var c3 := OnDatagram(c2.c, client, data, [s3.sends[0].data], now, wall);
      |c3.sends| == 1
      && var s4 := OnDatagram(s3.c, server, data, [c3.sends[0].data], now, wall);
      c3.c.state == CONNECTED && s4.c.state == CONNECTED
      && c3.c.log == c.log + [Connect] && s4.c.log == s.log + [Connect]
      && c3.c.mtu == s4.c.mtu == c3.c.layerMtu == s4.c.layerMtu == Proposed(server, size)
      && c3.c.remoteGuid == server.guid && s4.c.remoteGuid == client.guid
  {
    var mtu := Proposed(server, size);
    OfflineExchange(c, client, s, server, size, now, wall);
    var s2 := WithMtu(s.(lastRecv := now, state := CONNECTING, start := now, remoteGuid := client.guid), mtu);
    var c2 := WithMtu(c.(lastRecv := now, remoteGuid := server.guid), mtu);
    OnlineExchange(c2, client, s2, server, data, now, wall);
  }

  // ---------- times on the wire ----------

  /** A time travels as milliseconds, in eight bytes. */
  lemma StampIs(now: real)
    requires 0.0 <= now < 18446744073709551.0
    ensures |Stamp(now)| == 8 && FromBigEndian(Stamp(now)) == (now * 1000.0).Floor
  {
    Pow256Table();
    BigEndianValue((now * 1000.0).Floor, 8);
  }

  /** The padding of a first request is zero bytes up to the size under trial. */
  lemma Request1Shape(protocol: byte, size: int)
    ensures var data := Request1(protocol, size);
      |data| == Max(size - 28, 18) && data[17] == protocol && forall i :: 18 <= i < |data| ==> data[i] == 0
  {
    PaddingSize(size - UDP_HEADER_SIZE - 18);
  }

  // ---------- goodbye ----------

  /** A goodbye ends both sides: the one that says it goes down with one
      DISCONNECT once its data is out, the one that hears it signals DISCONNECT
      at once and goes down in silence once its ACKs are out. */
  lemma GoodbyeEndsBoth(a: Conn, b: Conn, cfgA: Config, cfgB: Config, data: Bytes, mid: Layer, last: Layer, now: real, wall: nat)
    requires a.state == CONNECTED && b.state == CONNECTED && !a.onAckSent
    requires !(a.lastRecv > 0.0 && now - a.lastRecv > cfgA.timeout) && cfgB.timeout >= 0.0
    requires mid.dataPending && !last.dataPending && !last.acksPending && mid.acksPending
    ensures var closing := Close(a);
      |closing.sends| == 1
      && var waiting := Update(closing.c, cfgA, mid, now).c;
      waiting.state == DISCONNECTING && waiting.log == a.log
      && var a' := Update(waiting, cfgA, last, now).c;
      a'.state == DISCONNECTED && a'.log == a.log + [Disconnect([])]
      && var told := OnDatagram(b, cfgB, data, [closing.sends[0].data], now, wall).c;
      told.log == b.log + [Disconnect([])] && told.state == DISCONNECTING
      && Update(told, cfgB, mid, now).c == told
      && Update(told, cfgB, last, now).c == told.(state := DISCONNECTED)
  {
    var msg := Close(a).sends[0].data;
    var one: seq<Bytes> := [msg];
    assert msg == [21] && [] + (one + []) == one;
    GoodbyeCuts(b.(lastRecv := now), cfgB, [], [], now, wall);
    assert Received([]) + [Disconnect([])] == [Disconnect([])];
  }

  // ---------- refusals ----------

  /** A first request of another protocol version is told so, with the server's
      version, and changes nothing. */
  lemma OtherProtocolRefused(s: Conn, server: Config, protocol: byte, size: int, now: real)
    requires protocol != server.protocol
    ensures OnRequest1(s, server, Request1(protocol, size), now)
            == Answer(s, [25, server.protocol] + MAGIC + BigEndian(server.guid, 8))
  {
    assert Request1(protocol, size)[17] == protocol;
    assert [25 as byte] + [server.protocol] + MAGIC + BigEndian(server.guid, 8)
        == [25, server.protocol] + MAGIC + BigEndian(server.guid, 8);
  }

  /** A reply that asks for security is left unanswered. */
  lemma SecuredReplyIgnored(c: Conn, client: Config, guid: nat, flag: byte, mtu: int)
    requires guid < Pow256(8) && flag != 0
    ensures OnReply1(c, client, [6] + MAGIC + BigEndian(guid, 8) + [flag] + BigEndian(mtu, 2)) == Quiet(c.(remoteGuid := guid))
  {
    var front: Bytes := [6] + MAGIC;
    var r := front + BigEndian(guid, 8) + [flag] + BigEndian(mtu, 2);
    BigHere(front, guid, 8, [flag] + BigEndian(mtu, 2));
    assert r == front + BigEndian(guid, 8) + ([flag] + BigEndian(mtu, 2));
    assert r[25] == flag;
  }

  /** A dialling client is ended by any rejection, which becomes the reason of its
      one DISCONNECT; a server, or a side that is up, does not heed it. */
  lemma RejectionEnds(c: Conn, cfg: Config, data: Bytes, now: real, wall: nat)
    requires |data| >= 1 && data[0] in [25, 20, 18, 23, 26, 24, 17] && (c.state == CONNECTING || c.state == CONNECTED)
    ensures var out := OnDatagram(c, cfg, data, [], now, wall);
      out.datagrams == [] && out.sends == []
      && if c.state == CONNECTING && !cfg.isServer then out.c == Told(c.(lastRecv := now), [Disconnect(data)]).(state := DISCONNECTED)
         else out.c == c.(lastRecv := now)
  {
  }

  /** Handshake messages cut short connect nobody. */
  lemma ShortNeverConnects(c: Conn, cfg: Config, msg: Bytes, now: real, wall: nat)
    requires c.state == CONNECTING && msg != []
    requires (msg[0] == 16 && |msg| < 26 + 7 * cfg.internalIds) || (msg[0] == 19 && |msg| < 24 + 7 * cfg.internalIds)
    ensures OnMessage(c, cfg, msg, now, wall).c == c && OnMessage(c, cfg, msg, now, wall).sends == []
    ensures OnMessage(c, cfg, msg, now, wall).raised <==> msg[0] == 16 && !cfg.isServer
  {
  }

  /** The user's message goes to the layer as it is exactly while connected; at
      any other time the call fails. */
  lemma UserSendExactly(c: Conn, data: Bytes, rel: Reliability)
    ensures var out := UserSend(c, data, rel);
      out.c == c && out.datagrams == []
      && (out.raised <==> c.state != CONNECTED) && out.sends == if c.state == CONNECTED then [Sent(data, rel)] else []
  {
  }
}
