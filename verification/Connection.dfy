/** One connection with its fields (_connection.py), refining ConnectionSpec. */
module Connections {
  import opened Types
  import opened BitSpec
  import opened WireFormat
  import opened BitStreams
  import opened Codec
  import opened ConnectionSpec

  // ---------- building offline messages ----------

  method PutUInt64(bs: BitStream, v: int)
    requires Whole(bs)
    modifies bs`buf, bs`writePos
    ensures Whole(bs) && bs.buf == old(bs.buf) + BigEndian(v, 8)
  {
    bs.WriteUInt64(v);
  }

  method PutHeader(id: byte) returns (bs: BitStream)
    ensures fresh(bs) && Whole(bs) && bs.buf == [id] + MAGIC
  {
    bs := new BitStream();
    PutByte(bs, id);
    PutData(bs, MAGIC);
  }

  method BuildRequest1(protocol: byte, size: int) returns (raw: Bytes)
    ensures raw == Request1(protocol, size)
  {
    var bs := PutHeader(ID_OPEN_CONNECTION_REQUEST_1);
    PutByte(bs, protocol);
    var target := size - UDP_HEADER_SIZE;
    if target > 0 {
      bs.PadWithZeroToByteLength(target);
    }
    raw := bs.GetData();
  }

  method BuildReply1(guid: nat, mtu: int) returns (raw: Bytes)
    ensures raw == Reply1(guid, mtu)
  {
    var bs := PutHeader(ID_OPEN_CONNECTION_REPLY_1);
    PutUInt64(bs, guid);
    PutByte(bs, 0);
    PutUInt16(bs, mtu);
    raw := bs.GetData();
  }

  method BuildRequest2(peer: Bytes, mtu: int, guid: nat) returns (raw: Bytes)
    ensures raw == Request2(peer, mtu, guid)
  {
    var bs := PutHeader(ID_OPEN_CONNECTION_REQUEST_2);
    PutData(bs, peer);
    PutUInt16(bs, mtu);
    PutUInt64(bs, guid);
    raw := bs.GetData();
  }

  method BuildReply2(guid: nat, peer: Bytes, mtu: int) returns (raw: Bytes)
    ensures raw == Reply2(guid, peer, mtu)
  {
    var bs := PutHeader(ID_OPEN_CONNECTION_REPLY_2);
    PutUInt64(bs, guid);
    PutData(bs, peer);
    PutUInt16(bs, mtu);
    PutFlag(bs);
    raw := bs.GetData();
  }

  /** A single 0 bit takes a byte of its own. */
  method PutFlag(bs: BitStream)
    requires Whole(bs)
    modifies bs`buf, bs`writePos
    ensures bs.Valid() && bs.buf == old(bs.buf) + [0]
  {
    bs.AlignWriteToByte();
    ghost var before := bs.buf;
    bs.WriteBit(false);
    assert bs.Written() == BytesBits(before) + [false];
    PadIsTail(bs.buf, bs.writePos);
    PadEight([false]);
    BitTable(0);
    FlushedByte(before, [false], bs.buf, 0);
  }

  // ---------- the connection ----------

  class Connection {
    const cfg: Config
    var state: State
    var remoteGuid: nat
    var mtu: int
    /** What `_cc.mtu` and `_reliability._mtu` are set to. */
    var layerMtu: int
    var lastRecvTime: real
    var lastPingTime: real
    var disconnectOnAckSent: bool
    var mtuAttemptIndex: nat
    var handshakeRetransmitCount: nat
    var handshakeStart: real
    var handshakeRetransmitTime: real
    var events: seq<Signal>
    ghost var log: seq<Signal>

    /** The fields as one value. */
    ghost function Current(): Conn
      reads this
    {
      Conn(state, remoteGuid, mtu, layerMtu, lastRecvTime, lastPingTime, disconnectOnAckSent, mtuAttemptIndex,
           handshakeRetransmitCount, handshakeStart, handshakeRetransmitTime, events, log)
    }

    constructor (cfg: Config, mtu: int)
      ensures this.cfg == cfg && Current() == NewConn(mtu)
    {
      this.cfg := cfg;
      state, remoteGuid, this.mtu, layerMtu := DISCONNECTED, 0, mtu, mtu;
      lastRecvTime, lastPingTime, disconnectOnAckSent := 0.0, 0.0, false;
      mtuAttemptIndex, handshakeRetransmitCount := 0, 0;
      handshakeStart, handshakeRetransmitTime := 0.0, 0.0;
      events, log := [], [];
    }

    method Raise(s: Signal)
      modifies this`events, this`log
      ensures Current() == Signalled(old(Current()), s)
    {
      events := events + [s];
      log := log + [s];
    }

    method PollEvents() returns (polled: seq<Signal>)
      modifies this`events
      ensures polled == old(events) && Current() == old(Current()).(events := [])
    {
      polled := events;
      events := [];
    }

    method TakeMtu(newMtu: int)
      modifies this`mtu, this`layerMtu
      ensures Current() == WithMtu(old(Current()), newMtu)
    {
      mtu, layerMtu := newMtu, newMtu;
    }

    // ---------- offline handshake ----------

    /** The identifier and the magic have been looked at already. */
    method OpenOffline(data: Bytes) returns (bs: BitStream)
      requires |data| >= 17
      ensures fresh(bs) && Whole(bs) && bs.buf == data && bs.readPos == 8 * 17
    {
      bs := new BitStream.FromData(data);
      var id := TakeUInt(bs, 1);
      var magic := TakeData(bs, 16);
    }

    method HandleOpenRequest1(data: Bytes, now: real) returns (datagrams: seq<Bytes>, raised: bool)
      requires |data| >= 17
      modifies this
      ensures Out(Current(), datagrams, [], raised) == OnRequest1(old(Current()), cfg, data, now)
    {
      datagrams, raised := [], false;
      var bs := OpenOffline(data);
      var proto := TakeUInt(bs, 1);
      if proto == None {
        return [], true;
      }
      ByteHere(data, 17);
      if proto.value != cfg.protocol {
        var reject := BuildIncompatible(cfg.protocol, cfg.guid);
        return [reject], false;
      }
      var incomingMtu := Min(|data| + UDP_HEADER_SIZE, cfg.maxMtu);
      state, handshakeStart, lastRecvTime := CONNECTING, now, now;
      var reply := BuildReply1(cfg.guid, incomingMtu);
      datagrams := [reply];
    }

    method HandleOpenReply1(data: Bytes) returns (datagrams: seq<Bytes>, raised: bool)
      requires |data| >= 17
      modifies this
      ensures Out(Current(), datagrams, [], raised) == OnReply1(old(Current()), cfg, data)
    {
      datagrams, raised := [], false;
      var bs := OpenOffline(data);
      var guid := TakeUInt(bs, 8);
      if guid == None {
        return [], true;
      }
      remoteGuid := guid.value;
      var hasSecurity := TakeUInt(bs, 1);
      if hasSecurity == None {
        return [], true;
      }
      ByteHere(data, 25);
      if hasSecurity.value != 0 {
        return;
      }
      var newMtu := TakeUInt(bs, 2);
      if newMtu == None {
        return [], true;
      }
      if !(cfg.minMtu <= newMtu.value <= cfg.maxMtu) {
        return;
      }
      TakeMtu(newMtu.value);
      var reply := BuildRequest2(cfg.peer, newMtu.value, cfg.guid);
      datagrams := [reply];
    }

    method HandleOpenRequest2(data: Bytes) returns (datagrams: seq<Bytes>, raised: bool)
      requires |data| >= 17
      modifies this
      ensures Out(Current(), datagrams, [], raised) == OnRequest2(old(Current()), cfg, data)
    {
      datagrams, raised := [], false;
      var bs := OpenOffline(data);
      var address := TakeData(bs, ADDRESS_SIZE);
      if address == None {
        return [], true;
      }
      var newMtu := TakeUInt(bs, 2);
      if newMtu == None {
        return [], true;
      }
      if !(cfg.minMtu <= newMtu.value <= cfg.maxMtu) {
        return;
      }
      var guid := TakeUInt(bs, 8);
      if guid == None {
        return [], true;
      }
      remoteGuid := guid.value;
      TakeMtu(newMtu.value);
      var reply := BuildReply2(cfg.guid, cfg.peer, newMtu.value);
      datagrams := [reply];
    }

    method HandleOpenReply2(data: Bytes, wall: nat) returns (sends: seq<Sent>, raised: bool)
      requires |data| >= 17
      modifies this
      ensures Out(Current(), [], sends, raised) == OnReply2(old(Current()), cfg, data, wall)
    {
      sends, raised := [], false;
      var bs := OpenOffline(data);
      var guid := TakeUInt(bs, 8);
      if guid == None {
        return [], true;
      }
      remoteGuid := guid.value;
      var address := TakeData(bs, ADDRESS_SIZE);
      if address == None {
        return [], true;
      }
      var newMtu := TakeUInt(bs, 2);
      if newMtu == None {
        return [], true;
      }
      var doSecurity := TakeUInt(bs, 1);
      if doSecurity == None {
        return [], true;
      }
      TakeMtu(newMtu.value);
      sends := [Sent(ConnectionRequest(cfg.guid, wall), RELIABLE)];
    }

    method HandleOffline(data: Bytes, now: real, wall: nat) returns (datagrams: seq<Bytes>, sends: seq<Sent>, raised: bool)
      requires IsOffline(data)
      modifies this
      ensures Out(Current(), datagrams, sends, raised) == OnOffline(old(Current()), cfg, data, now, wall)
    {
      datagrams, sends, raised := [], [], false;
      var id := data[0];
      if id == ID_OPEN_CONNECTION_REQUEST_1 && cfg.isServer {
        datagrams, raised := HandleOpenRequest1(data, now);
      } else if id == ID_OPEN_CONNECTION_REPLY_1 && !cfg.isServer {
        datagrams, raised := HandleOpenReply1(data);
      } else if id == ID_OPEN_CONNECTION_REQUEST_2 && cfg.isServer {
        datagrams, raised := HandleOpenRequest2(data);
      } else if id == ID_OPEN_CONNECTION_REPLY_2 && !cfg.isServer {
        sends, raised := HandleOpenReply2(data, wall);
      }
    }

    // ---------- connected messages ----------

    method HandleConnectedMessage(msg: Bytes, now: real, wall: nat) returns (sends: seq<Sent>, raised: bool)
      modifies this
      ensures Out(Current(), [], sends, raised) == OnMessage(old(Current()), cfg, msg, now, wall)
    {
      sends, raised := [], false;
      if |msg| < 1 {
        return;
      }
      var id := msg[0];
      if id == ID_CONNECTION_REQUEST && cfg.isServer && state == CONNECTING {
        sends, raised := HandleConnectionRequest(msg, wall);
      } else if id == ID_CONNECTION_REQUEST_ACCEPTED && !cfg.isServer && state == CONNECTING {
        sends, raised := HandleConnectionAccepted(msg, wall);
      } else if id == ID_NEW_INCOMING_CONNECTION && cfg.isServer && state == CONNECTING {
        sends := HandleNewIncomingConnection(msg, now);
      } else if id == ID_CONNECTED_PING && |msg| == 9 {
        sends := [Sent([ID_CONNECTED_PONG] + msg[1..9] + Stamp(now), UNRELIABLE)];
      } else if id == ID_CONNECTED_PONG && |msg| == 17 {
      } else if id == ID_DISCONNECTION_NOTIFICATION && |msg| == 1 {
        state, disconnectOnAckSent := DISCONNECTING, true;
        Raise(Signal.Disconnect([]));
      } else if id == ID_DETECT_LOST_CONNECTIONS && |msg| == 1 {
      } else if state == CONNECTED {
        Raise(Receive(msg));
      }
    }

    method HandleConnectionRequest(msg: Bytes, wall: nat) returns (sends: seq<Sent>, raised: bool)
      requires |msg| >= 1
      modifies this`remoteGuid
      ensures Out(Current(), [], sends, raised) == OnConnectionRequest(old(Current()), cfg, msg, wall)
    {
      var bs := new BitStream.FromData(msg);
      var id := TakeUInt(bs, 1);
      var guid := TakeUInt(bs, 8);
      if guid == None || |msg| < 18 {
        return [], true;
      }
      remoteGuid := guid.value;
      sends, raised := [Sent(Accepted(cfg, msg[9..17], wall), RELIABLE_ORDERED)], false;
    }

    method HandleConnectionAccepted(msg: Bytes, wall: nat) returns (sends: seq<Sent>, raised: bool)
      modifies this`state, this`events, this`log
      ensures Out(Current(), [], sends, raised) == OnAccepted(old(Current()), cfg, msg, wall)
    {
      var n := AcceptedSize(cfg);
      if |msg| < n {
        return [], true;
      }
      state := CONNECTED;
      Raise(Connect);
      sends, raised := [Sent(NewIncoming(cfg, msg[n - 8..n], wall), RELIABLE_ORDERED)], false;
    }

    method HandleNewIncomingConnection(msg: Bytes, now: real) returns (sends: seq<Sent>)
      modifies this`state, this`lastRecvTime, this`lastPingTime, this`events, this`log
      ensures Out(Current(), [], sends, false) == OnNewIncoming(old(Current()), cfg, msg, now)
    {
      if |msg| < 1 + ADDRESS_SIZE + ADDRESS_SIZE * cfg.internalIds + 16 {
        return [];
      }
      state, lastRecvTime := CONNECTED, now;
      Raise(Connect);
      sends := [Ping(now, false)];
      lastPingTime := now;
    }

    /** The loop of `on_datagram` over completed messages. */
    method HandleMessages(msgs: seq<Bytes>, now: real, wall: nat) returns (sends: seq<Sent>, raised: bool)
      modifies this
      ensures Out(Current(), [], sends, raised) == OnMessages(old(Current()), cfg, msgs, now, wall)
    {
      sends, raised := [], false;
      ghost var start := Current();
      assert msgs[0..] == msgs;
      PrefixNothing(OnMessages(start, cfg, msgs, now, wall));
      for i := 0 to |msgs|
        invariant !raised
        invariant Prefixed(sends, OnMessages(Current(), cfg, msgs[i..], now, wall)) == OnMessages(start, cfg, msgs, now, wall)
      {
        ghost var here := Current();
        var more;
        more, raised := HandleConnectedMessage(msgs[i], now, wall);
        MessagesUnfold(here, cfg, msgs, i, now, wall, sends, more, Current(), raised);
        sends := sends + more;
        if raised {
          return;
        }
      }
      assert sends + [] == sends;
    }

    method OnDatagram(data: Bytes, msgs: seq<Bytes>, now: real, wall: nat)
      returns (datagrams: seq<Bytes>, sends: seq<Sent>, raised: bool)
      modifies this
      ensures Out(Current(), datagrams, sends, raised)
              == ConnectionSpec.OnDatagram(old(Current()), cfg, data, msgs, now, wall)
    {
      lastRecvTime := now;
      datagrams, sends, raised := [], [], false;
      if state == DISCONNECTED || state == CONNECTING {
        if IsOffline(data) {
          datagrams, sends, raised := HandleOffline(data, now, wall);
          return;
        }
        if !cfg.isServer && IsRejection(data) {
          Raise(Signal.Disconnect(data));
          state := DISCONNECTED;
          return;
        }
      }
      if state != DISCONNECTED {
        MessagesAnswerNothing(Current(), cfg, msgs, now, wall);
        sends, raised := HandleMessages(msgs, now, wall);
      }
    }

    // ---------- update ----------

    method BuildOpenRequest1() returns (pkt: Option<Bytes>)
      ensures pkt == NextRequest(Current(), cfg)
    {
      if mtuAttemptIndex >= |cfg.sizes| {
        return None;
      }
      var raw := BuildRequest1(cfg.protocol, cfg.sizes[mtuAttemptIndex]);
      pkt := Some(raw);
    }

    method CheckTimeout(now: real) returns (lost: bool)
      modifies this`state, this`events, this`log
      ensures lost == TimedOut(old(Current()), cfg, now)
      ensures Current() == if lost then Lost(old(Current())) else old(Current())
    {
      lost := false;
      if state == CONNECTING {
        lost := handshakeStart > 0.0 && now - handshakeStart > cfg.timeout;
      } else if state == CONNECTED || state == DISCONNECTING {
        lost := lastRecvTime > 0.0 && now - lastRecvTime > cfg.timeout;
      }
      if lost {
        Raise(Signal.Disconnect([]));
        state := DISCONNECTED;
      }
    }

    /** The client's retransmission. */
    method Retransmit(now: real) returns (datagrams: seq<Bytes>)
      modifies this
      ensures Out(Current(), datagrams, [], false) == Retransmitted(old(Current()), cfg, now)
    {
      datagrams := [];
      if state == CONNECTING && !cfg.isServer && now - handshakeRetransmitTime > RETRANSMIT_INTERVAL {
        handshakeRetransmitCount := handshakeRetransmitCount + 1;
        if handshakeRetransmitCount >= RETRANSMIT_COUNT {
          mtuAttemptIndex := mtuAttemptIndex + 1;
          handshakeRetransmitCount := 0;
        }
        var pkt := BuildOpenRequest1();
        if pkt != None {
          datagrams := [pkt.value];
          handshakeRetransmitTime := now;
        } else {
          Raise(Signal.Disconnect([]));
          state := DISCONNECTED;
        }
      }
    }

    /** `update`; the datagrams of the layer's own flush are not among the result. */
    method Update(layer: Layer, now: real) returns (datagrams: seq<Bytes>, sends: seq<Sent>)
      modifies this
      ensures Out(Current(), datagrams, sends, false) == ConnectionSpec.Update(old(Current()), cfg, layer, now)
    {
      datagrams, sends := [], [];
      var lost := CheckTimeout(now);
      if lost {
        return;
      }
      datagrams := Retransmit(now);
      if state == CONNECTED && layer.lastReliableSend > 0.0 && now - layer.lastReliableSend > cfg.timeout / 2.0 {
        if layer.nothingTracked {
          sends := [Ping(now, true)];
        }
      }
      if state == CONNECTED && now - lastPingTime > PING_INTERVAL {
        sends := sends + [Ping(now, false)];
        lastPingTime := now;
      }
      FinishClosing(layer);
    }

    method FinishClosing(layer: Layer)
      modifies this`state, this`events, this`log
      ensures Current() == Closed(old(Current()), layer)
    {
      if disconnectOnAckSent && state == DISCONNECTING {
        if !layer.acksPending {
          state := DISCONNECTED;
        }
      } else if state == DISCONNECTING && !layer.dataPending {
        state := DISCONNECTED;
        Raise(Signal.Disconnect([]));
      }
    }

    // ---------- calls from above ----------

    method StartConnect(now: real) returns (pkt: Bytes)
      requires cfg.sizes != []
      modifies this
      ensures Out(Current(), [pkt], [], false) == ConnectionSpec.StartConnect(old(Current()), cfg, now)
    {
      state, handshakeStart, lastRecvTime := CONNECTING, now, now;
      mtuAttemptIndex, handshakeRetransmitCount, handshakeRetransmitTime := 0, 0, now;
      var request := BuildOpenRequest1();
      pkt := request.value;
    }

    /** Sending is refused unless connected. */
    method Send(data: Bytes, rel: Reliability) returns (sends: seq<Sent>, raised: bool)
      ensures Out(Current(), [], sends, raised) == UserSend(Current(), data, rel)
    {
      if state != CONNECTED {
        return [], true;
      }
      sends, raised := [Sent(data, rel)], false;
    }

    method Disconnect() returns (sends: seq<Sent>)
      modifies this`state
      ensures Out(Current(), [], sends, false) == Close(old(Current()))
    {
      sends := [];
      if state == CONNECTED {
        sends := [Sent([ID_DISCONNECTION_NOTIFICATION], RELIABLE_ORDERED)];
        state := DISCONNECTING;
      }
    }
  }

  method BuildIncompatible(protocol: byte, guid: nat) returns (raw: Bytes)
    ensures raw == Incompatible(protocol, guid)
  {
    var bs := new BitStream();
    PutByte(bs, ID_INCOMPATIBLE_PROTOCOL_VERSION);
    PutByte(bs, protocol);
    PutData(bs, MAGIC);
    PutUInt64(bs, guid);
    raw := bs.GetData();
  }

  lemma ByteHere(b: Bytes, p: nat)
    requires p < |b|
    ensures BigAt(b, p, 1) == Some((b[p], p + 1))
  {
    assert b[p..p + 1] == [b[p]];
    assert FromBigEndian([b[p]]) == 256 * FromBigEndian([b[p]][..0]) + b[p];
  }

  /** An outcome with more messages in front. */
  function Prefixed(sends: seq<Sent>, out: Out): Out {
    out.(sends := sends + out.sends)
  }

  lemma PrefixNothing(out: Out)
    ensures Prefixed([], out) == out
  {
  }

  lemma MessagesUnfold(c: Conn, cfg: Config, msgs: seq<Bytes>, i: nat, now: real, wall: nat, sends: seq<Sent>,
                       more: seq<Sent>, c': Conn, raised: bool)
    requires i < |msgs| && Out(c', [], more, raised) == OnMessage(c, cfg, msgs[i], now, wall)
    ensures Prefixed(sends, OnMessages(c, cfg, msgs[i..], now, wall))
            == if raised then Out(c', [], sends + more, true)
               else Prefixed(sends + more, OnMessages(c', cfg, msgs[i + 1..], now, wall))
  {
    assert msgs[i..][0] == msgs[i] && msgs[i..][1..] == msgs[i + 1..];
    if !raised {
      var rest := OnMessages(c', cfg, msgs[i + 1..], now, wall);
      assert sends + (more + rest.sends) == sends + more + rest.sends;
    }
  }

  lemma {:induction false} MessagesAnswerNothing(c: Conn, cfg: Config, msgs: seq<Bytes>, now: real, wall: nat)
    ensures OnMessages(c, cfg, msgs, now, wall).datagrams == []
    decreases |msgs|
  {
    if msgs != [] {
      var first := OnMessage(c, cfg, msgs[0], now, wall);
      if !first.raised {
        MessagesAnswerNothing(first.c, cfg, msgs[1..], now, wall);
      }
    }
  }
}
