/** The connection state machine (_connection.py).  The reliability layer below
    it appears as the messages it completes and the messages handed to it. */
module ConnectionSpec {
  import opened Types
  import opened BitSpec
  import opened WireFormat
  import BitStreams

  const ID_CONNECTED_PING: byte := 0
  const ID_CONNECTED_PONG: byte := 3
  const ID_DETECT_LOST_CONNECTIONS: byte := 4
  const ID_OPEN_CONNECTION_REQUEST_1: byte := 5
  const ID_OPEN_CONNECTION_REPLY_1: byte := 6
  const ID_OPEN_CONNECTION_REQUEST_2: byte := 7
  const ID_OPEN_CONNECTION_REPLY_2: byte := 8
  const ID_CONNECTION_REQUEST: byte := 9
  const ID_CONNECTION_REQUEST_ACCEPTED: byte := 16
  const ID_CONNECTION_ATTEMPT_FAILED: byte := 17
  const ID_ALREADY_CONNECTED: byte := 18
  const ID_NEW_INCOMING_CONNECTION: byte := 19
  const ID_NO_FREE_INCOMING_CONNECTIONS: byte := 20
  const ID_DISCONNECTION_NOTIFICATION: byte := 21
  const ID_CONNECTION_BANNED: byte := 23
  const ID_INVALID_PASSWORD: byte := 24
  const ID_INCOMPATIBLE_PROTOCOL_VERSION: byte := 25
  const ID_IP_RECENTLY_CONNECTED: byte := 26

  const MAGIC: Bytes := [0x00, 0xFF, 0xFF, 0x00, 0xFE, 0xFE, 0xFE, 0xFE, 0xFD, 0xFD, 0xFD, 0xFD, 0x12, 0x34, 0x56, 0x78]
  const ADDRESS_SIZE := 7
  const RETRANSMIT_INTERVAL: real := 1.0
  const RETRANSMIT_COUNT := 3
  const PING_INTERVAL: real := 5.0

  datatype State = DISCONNECTED | CONNECTING | CONNECTED | DISCONNECTING

  datatype Signal = Connect | Disconnect(reason: Bytes) | Receive(data: Bytes)

  /** peer, locals: encoded addresses of the peer and of this host. */
  datatype Config = Config(isServer: bool, guid: nat, protocol: byte, minMtu: int, maxMtu: int, sizes: seq<int>,
                           timeout: real, peer: Bytes, locals: Bytes, internalIds: nat)

  /** layerMtu: the MTU of the reliability layer and its controller.  log:
      every signal ever raised; events: those not yet polled. */
  datatype Conn = Conn(state: State, remoteGuid: nat, mtu: int, layerMtu: int, lastRecv: real, lastPing: real,
                       onAckSent: bool, attempt: nat, retransmits: nat, start: real, retransmitAt: real,
                       events: seq<Signal>, log: seq<Signal>)

  /** A message handed to the reliability layer. */
  datatype Sent = Sent(data: Bytes, rel: Reliability)

  /** The outcome of a call: datagrams answered at once, messages handed to the
      layer, and whether a short message raised an error on the way. */
  datatype Out = Out(c: Conn, datagrams: seq<Bytes>, sends: seq<Sent>, raised: bool)

  function NewConn(mtu: int): Conn {
    Conn(DISCONNECTED, 0, mtu, mtu, 0.0, 0.0, false, 0, 0, 0.0, 0.0, [], [])
  }

  function Quiet(c: Conn): Out {
    Out(c, [], [], false)
  }

  function Raised(c: Conn): Out {
    Out(c, [], [], true)
  }

  function Answer(c: Conn, datagram: Bytes): Out {
    Out(c, [datagram], [], false)
  }

  function Tell(c: Conn, message: Sent): Out {
    Out(c, [], [message], false)
  }

  function Signalled(c: Conn, s: Signal): Conn {
    c.(events := c.events + [s], log := c.log + [s])
  }

  /** A time in seconds as a 64-bit count of milliseconds. */
  function Stamp(now: real): Bytes {
    BigEndian((now * 1000.0).Floor, 8)
  }

  function Padding(n: int): Bytes {
    BitStreams.Zeros(Max(n, 0))
  }

  // ---------- offline messages ----------

  function Request1(protocol: byte, size: int): Bytes {
    [ID_OPEN_CONNECTION_REQUEST_1] + MAGIC + [protocol] + Padding(size - UDP_HEADER_SIZE - 18)
  }

  function Reply1(guid: nat, mtu: int): Bytes {
    [ID_OPEN_CONNECTION_REPLY_1] + MAGIC + BigEndian(guid, 8) + [0] + BigEndian(mtu, 2)
  }

  function Request2(peer: Bytes, mtu: int, guid: nat): Bytes {
    [ID_OPEN_CONNECTION_REQUEST_2] + MAGIC + peer + BigEndian(mtu, 2) + BigEndian(guid, 8)
  }

  function Reply2(guid: nat, peer: Bytes, mtu: int): Bytes {
    [ID_OPEN_CONNECTION_REPLY_2] + MAGIC + BigEndian(guid, 8) + peer + BigEndian(mtu, 2) + [0]
  }

  function Incompatible(protocol: byte, guid: nat): Bytes {
    [ID_INCOMPATIBLE_PROTOCOL_VERSION] + [protocol] + MAGIC + BigEndian(guid, 8)
  }

  function ConnectionRequest(guid: nat, wall: nat): Bytes {
    [ID_CONNECTION_REQUEST] + BigEndian(guid, 8) + BigEndian(wall, 8) + [0]
  }

  predicate IsOffline(data: Bytes) {
    |data| >= 17
    && data[0] in [ID_OPEN_CONNECTION_REQUEST_1, ID_OPEN_CONNECTION_REPLY_1, ID_OPEN_CONNECTION_REQUEST_2,
                   ID_OPEN_CONNECTION_REPLY_2]
    && data[1..17] == MAGIC
  }

  predicate IsRejection(data: Bytes) {
    |data| >= 1
    && data[0] in [ID_INCOMPATIBLE_PROTOCOL_VERSION, ID_NO_FREE_INCOMING_CONNECTIONS, ID_ALREADY_CONNECTED,
                   ID_CONNECTION_BANNED, ID_IP_RECENTLY_CONNECTED, ID_INVALID_PASSWORD, ID_CONNECTION_ATTEMPT_FAILED]
  }

  function OnRequest1(c: Conn, cfg: Config, data: Bytes, now: real): Out {
    if |data| < 18 then Raised(c)
    else if data[17] != cfg.protocol then Answer(c, Incompatible(cfg.protocol, cfg.guid))
    else
      Answer(c.(state := CONNECTING, start := now, lastRecv := now),
             Reply1(cfg.guid, Min(|data| + UDP_HEADER_SIZE, cfg.maxMtu)))
  }

  predicate MtuAllowed(cfg: Config, mtu: int) {
    cfg.minMtu <= mtu <= cfg.maxMtu
  }

  function WithMtu(c: Conn, mtu: int): Conn {
    c.(mtu := mtu, layerMtu := mtu)
  }

  function OnReply1(c: Conn, cfg: Config, data: Bytes): Out {
    match BigAt(data, 17, 8)
    case None => Raised(c)
    case Some((guid, p)) =>
      var c1 := c.(remoteGuid := guid);
      if |data| <= p then Raised(c1)
      else if data[p] != 0 then Quiet(c1)
      else
        match BigAt(data, p + 1, 2)
        case None => Raised(c1)
        case Some((mtu, _)) =>
          if MtuAllowed(cfg, mtu) then Answer(WithMtu(c1, mtu), Request2(cfg.peer, mtu, cfg.guid)) else Quiet(c1)
  }

  function OnRequest2(c: Conn, cfg: Config, data: Bytes): Out {
    match BigAt(data, 17 + ADDRESS_SIZE, 2)
    case None => Raised(c)
    case Some((mtu, p)) =>
      if !MtuAllowed(cfg, mtu) then Quiet(c)
      else
        match BigAt(data, p, 8)
        case None => Raised(c)
        case Some((guid, _)) =>
          Answer(WithMtu(c.(remoteGuid := guid), mtu), Reply2(cfg.guid, cfg.peer, mtu))
  }

  function OnReply2(c: Conn, cfg: Config, data: Bytes, wall: nat): Out {
    match BigAt(data, 17, 8)
    case None => Raised(c)
    case Some((guid, p)) =>
      var c1 := c.(remoteGuid := guid);
      match BigAt(data, p + ADDRESS_SIZE, 2)
      case None => Raised(c1)
      case Some((mtu, q)) =>
        if |data| <= q then Raised(c1)
        else Tell(WithMtu(c1, mtu), Sent(ConnectionRequest(cfg.guid, wall), RELIABLE))
  }

  function OnOffline(c: Conn, cfg: Config, data: Bytes, now: real, wall: nat): Out
    requires IsOffline(data)
  {
    if data[0] == ID_OPEN_CONNECTION_REQUEST_1 && cfg.isServer then OnRequest1(c, cfg, data, now)
    else if data[0] == ID_OPEN_CONNECTION_REPLY_1 && !cfg.isServer then OnReply1(c, cfg, data)
    else if data[0] == ID_OPEN_CONNECTION_REQUEST_2 && cfg.isServer then OnRequest2(c, cfg, data)
    else if data[0] == ID_OPEN_CONNECTION_REPLY_2 && !cfg.isServer then OnReply2(c, cfg, data, wall)
    else Quiet(c)
  }

  // ---------- messages from the layer ----------

  function Accepted(cfg: Config, clientTime: Bytes, wall: nat): Bytes {
    [ID_CONNECTION_REQUEST_ACCEPTED] + cfg.peer + [0, 0] + cfg.locals + clientTime + BigEndian(wall, 8)
  }

  function NewIncoming(cfg: Config, replyTime: Bytes, wall: nat): Bytes {
    [ID_NEW_INCOMING_CONNECTION] + cfg.peer + cfg.locals + replyTime + BigEndian(wall, 8)
  }

  function OnConnectionRequest(c: Conn, cfg: Config, msg: Bytes, wall: nat): Out {
    match BigAt(msg, 1, 8)
    case None => Raised(c)
    case Some((guid, _)) =>
      if |msg| < 18 then Raised(c)
      else Tell(c.(remoteGuid := guid), Sent(Accepted(cfg, msg[9..17], wall), RELIABLE_ORDERED))
  }

  function AcceptedSize(cfg: Config): nat {
    1 + ADDRESS_SIZE + 2 + ADDRESS_SIZE * cfg.internalIds + 16
  }

  function OnAccepted(c: Conn, cfg: Config, msg: Bytes, wall: nat): Out {
    var n := AcceptedSize(cfg);
    if |msg| < n then Raised(c)
    else Tell(Signalled(c.(state := CONNECTED), Connect), Sent(NewIncoming(cfg, msg[n - 8..n], wall), RELIABLE_ORDERED))
  }

  function Ping(now: real, reliable: bool): Sent {
    Sent([ID_CONNECTED_PING] + Stamp(now), if reliable then RELIABLE else UNRELIABLE)
  }

  function OnNewIncoming(c: Conn, cfg: Config, msg: Bytes, now: real): Out {
    if |msg| < 1 + ADDRESS_SIZE + ADDRESS_SIZE * cfg.internalIds + 16 then Quiet(c)
    else Tell(Signalled(c.(state := CONNECTED, lastRecv := now), Connect).(lastPing := now), Ping(now, false))
  }

  function OnMessage(c: Conn, cfg: Config, msg: Bytes, now: real, wall: nat): Out {
    if msg == [] then Quiet(c)
    else if msg[0] == ID_CONNECTION_REQUEST && cfg.isServer && c.state == CONNECTING then
      OnConnectionRequest(c, cfg, msg, wall)
    else if msg[0] == ID_CONNECTION_REQUEST_ACCEPTED && !cfg.isServer && c.state == CONNECTING then
      OnAccepted(c, cfg, msg, wall)
    else if msg[0] == ID_NEW_INCOMING_CONNECTION && cfg.isServer && c.state == CONNECTING then
      OnNewIncoming(c, cfg, msg, now)
    else if msg[0] == ID_CONNECTED_PING && |msg| == 9 then
      Tell(c, Sent([ID_CONNECTED_PONG] + msg[1..9] + Stamp(now), UNRELIABLE))
    else if msg[0] == ID_CONNECTED_PONG && |msg| == 17 then Quiet(c)
    else if msg[0] == ID_DISCONNECTION_NOTIFICATION && |msg| == 1 then
      Quiet(Signalled(c.(state := DISCONNECTING, onAckSent := true), Disconnect([])))
    else if msg[0] == ID_DETECT_LOST_CONNECTIONS && |msg| == 1 then Quiet(c)
    else if c.state == CONNECTED then Quiet(Signalled(c, Receive(msg)))
    else Quiet(c)
  }

  function Then(a: Out, b: Out): Out {
    Out(b.c, a.datagrams + b.datagrams, a.sends + b.sends, b.raised)
  }

  /** Completed messages one after the other; an error leaves the rest in the layer. */
  function OnMessages(c: Conn, cfg: Config, msgs: seq<Bytes>, now: real, wall: nat): Out
    decreases |msgs|
  {
    if msgs == [] then Quiet(c)
    else
      var first := OnMessage(c, cfg, msgs[0], now, wall);
      if first.raised then first else Then(first, OnMessages(first.c, cfg, msgs[1..], now, wall))
  }

  /** `on_datagram`; msgs is what the layer completes when it gets the datagram. */
  function OnDatagram(c0: Conn, cfg: Config, data: Bytes, msgs: seq<Bytes>, now: real, wall: nat): Out {
    var c := c0.(lastRecv := now);
    var early := c.state == DISCONNECTED || c.state == CONNECTING;
    if early && IsOffline(data) then OnOffline(c, cfg, data, now, wall)
    else if early && !cfg.isServer && IsRejection(data) then
      Quiet(Signalled(c, Disconnect(data)).(state := DISCONNECTED))
    else if c.state != DISCONNECTED then OnMessages(c, cfg, msgs, now, wall)
    else Quiet(c)
  }

  // ---------- ticks ----------

  /** What a tick asks of the layer: before its flush the time of the last
      reliable send and whether nothing is tracked, afterwards whether ACKs or
      data are pending. */
  datatype Layer = Layer(lastReliableSend: real, nothingTracked: bool, acksPending: bool, dataPending: bool)

  function NextRequest(c: Conn, cfg: Config): Option<Bytes> {
    if c.attempt >= |cfg.sizes| then None else Some(Request1(cfg.protocol, cfg.sizes[c.attempt]))
  }

  function TimedOut(c: Conn, cfg: Config, now: real): bool {
    match c.state
    case CONNECTING => c.start > 0.0 && now - c.start > cfg.timeout
    case DISCONNECTED => false
    case _ => c.lastRecv > 0.0 && now - c.lastRecv > cfg.timeout
  }

  function Lost(c: Conn): Conn {
    Signalled(c, Disconnect([])).(state := DISCONNECTED)
  }

  predicate RetransmitDue(c: Conn, cfg: Config, now: real) {
    c.state == CONNECTING && !cfg.isServer && now - c.retransmitAt > RETRANSMIT_INTERVAL
  }

  function Counted(c: Conn): Conn {
    if c.retransmits + 1 >= RETRANSMIT_COUNT then c.(attempt := c.attempt + 1, retransmits := 0)
    else c.(retransmits := c.retransmits + 1)
  }

  function Retransmitted(c: Conn, cfg: Config, now: real): Out {
    if !RetransmitDue(c, cfg, now) then Quiet(c)
    else
      match NextRequest(Counted(c), cfg)
      case Some(pkt) => Answer(Counted(c).(retransmitAt := now), pkt)
      case None => Quiet(Lost(Counted(c)))
  }

  predicate KeepaliveDue(c: Conn, cfg: Config, layer: Layer, now: real) {
    c.state == CONNECTED && layer.lastReliableSend > 0.0 && now - layer.lastReliableSend > cfg.timeout / 2.0
    && layer.nothingTracked
  }

  function Pinged(c: Conn, now: real): Out {
    if c.state == CONNECTED && now - c.lastPing > PING_INTERVAL then Tell(c.(lastPing := now), Ping(now, false))
    else Quiet(c)
  }

  /** The end of a disconnection. */
  function Closed(c: Conn, layer: Layer): Conn {
    if c.onAckSent && c.state == DISCONNECTING then (if layer.acksPending then c else c.(state := DISCONNECTED))
    else if c.state == DISCONNECTING && !layer.dataPending then Lost(c)
    else c
  }

  /** `update`, without the datagrams of the layer itself. */
  function Update(c: Conn, cfg: Config, layer: Layer, now: real): Out {
    if TimedOut(c, cfg, now) then Quiet(Lost(c))
    else
      var a := Retransmitted(c, cfg, now);
      var keep := if KeepaliveDue(a.c, cfg, layer, now) then [Ping(now, true)] else [];
      var b := Pinged(a.c, now);
      Out(Closed(b.c, layer), a.datagrams, keep + b.sends, false)
  }

  // ---------- calls from above ----------

  /** `start_connect`; with no size to try the code's assertion fails. */
  function StartConnect(c: Conn, cfg: Config, now: real): Out
    requires cfg.sizes != []
  {
    Answer(c.(state := CONNECTING, start := now, lastRecv := now, attempt := 0, retransmits := 0, retransmitAt := now),
           Request1(cfg.protocol, cfg.sizes[0]))
  }

  /** `_send`: refused unless connected. */
  function UserSend(c: Conn, data: Bytes, rel: Reliability): Out {
    if c.state == CONNECTED then Tell(c, Sent(data, rel)) else Raised(c)
  }

  function Close(c: Conn): Out {
    if c.state == CONNECTED then
      Tell(c.(state := DISCONNECTING), Sent([ID_DISCONNECTION_NOTIFICATION], RELIABLE_ORDERED))
    else Quiet(c)
  }

  // ---------- runs ----------

  datatype Call =
    | Datagram(data: Bytes, msgs: seq<Bytes>)
    | Tick(layer: Layer)
    | Start
    | Send(data: Bytes, rel: Reliability)
    | Shut
    | PollEvents

  predicate Callable(cfg: Config, call: Call) {
    call.Start? ==> cfg.sizes != []
  }

  function Do(c: Conn, cfg: Config, call: Call, now: real, wall: nat): Out
    requires Callable(cfg, call)
  {
    match call
    case Datagram(data, msgs) => OnDatagram(c, cfg, data, msgs, now, wall)
    case Tick(layer) => Update(c, cfg, layer, now)
    case Start => StartConnect(c, cfg, now)
    case Send(data, rel) => UserSend(c, data, rel)
    case Shut => Close(c)
    case PollEvents => Quiet(c.(events := []))
  }
}
