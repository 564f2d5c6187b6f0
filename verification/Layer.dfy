/** The reliability layer of one connection: its send side and its receive side
    share the congestion controller (_reliability.py:180-447). */
module Layer {
  import opened SeqNum
  import opened Types
  import opened BitSpec
  import opened WireFormat
  import opened Tags
  import SenderSpec
  import ReceiverSpec
  import S = Sending
  import R = Receiving
  import Congestion
  import Codec
  import Ranges

  // ---------- what a datagram may be ----------

  lemma ThreeBytes(s: seq<nat>)
    requires |s| == 3 && forall i :: 0 <= i < 3 ==> s[i] < 256
    ensures FromLittleEndian(s) < 0x1000000
  {
    assert s[1..] == [s[1], s[2]] && s[1..][1..] == [s[2]] && s[1..][1..][1..] == [];
    assert FromLittleEndian([s[2]]) == s[2] && FromLittleEndian([s[1], s[2]]) == s[1] + 256 * s[2];
  }

  lemma BytesFit(b: Bytes, p: nat)
    requires LittleAt(b, p).Some?
    ensures LittleAt(b, p).value.0 < 0x1000000
  {
    ThreeBytes(b[p..p + 3]);
  }

  lemma RangeParsed(b: Bytes, p: nat)
    requires RangeAt(b, p).Some?
    ensures RangeFits(RangeAt(b, p).value.0)
  {
    var single := BigAt(b, p, 1).value;
    BytesFit(b, single.1);
    if single.0 == 0 {
      BytesFit(b, LittleAt(b, single.1).value.1);
    }
  }

  lemma {:induction false} RangesParsed(b: Bytes, p: nat, count: nat)
    requires RangesAt(b, p, count).Some?
    ensures forall r <- RangesAt(b, p, count).value :: RangeFits(r)
    decreases count
  {
    if count > 0 {
      RangeParsed(b, p);
      RangesParsed(b, RangeAt(b, p).value.1, count - 1);
    }
  }

  /** Whatever bytes come in, a parsed range list holds 24-bit numbers. */
  lemma ParsedRangesFit(raw: Bytes)
    requires Parse(raw).Some? && !Parse(raw).value.Data?
    ensures forall r <- Parse(raw).value.ranges :: RangeFits(r)
  {
    forall p: nat | RangeListAt(raw, p).Some?
      ensures forall r <- RangeListAt(raw, p).value :: RangeFits(r)
    {
      var count := BigAt(raw, p, 2).value;
      RangesParsed(raw, count.1, count.0);
    }
  }

  class ReliabilityLayer {
    const cc: Congestion.CongestionController
    const tx: S.SendSide
    const rx: R.ReceiveSide
    const timeout: real
    var mtu: int

    ghost predicate Valid()
      reads this, cc, tx, rx, rx.receivedDatagrams, rx.reliableWindow
    {
      tx.cc == cc && rx.cc == cc && rx.timeout == timeout && tx.Valid() && rx.Valid()
    }

    constructor (mtu: int, cc: Congestion.CongestionController, timeout: real)
      requires cc.Valid() && cc.sent == 0 && cc.expected == 0
      ensures Valid() && this.cc == cc && this.mtu == mtu && this.timeout == timeout
      ensures tx.abs == SenderSpec.NewSender() && rx.abs == ReceiverSpec.NewReceiver()
      ensures fresh(tx) && fresh(rx) && fresh(rx.receivedDatagrams) && fresh(rx.reliableWindow)
    {
      this.cc, this.mtu, this.timeout := cc, mtu, timeout;
      tx := new S.SendSide(cc);
      rx := new R.ReceiveSide(cc, timeout);
    }

    /** The handshake sets the MTU of the layer and of its controller; what is
        queued or tracked stays.  The state stays sound exactly when the MTU is
        not raised above the window. */
    method SetMtu(newMtu: int)
      requires Valid()
      modifies this`mtu, cc`mtu
      ensures mtu == newMtu && cc.CurrentWindow() == Congestion.Apply(old(cc.CurrentWindow()), Congestion.MtuSet(newMtu))
      ensures Valid() <==> Congestion.Allowed(old(cc.CurrentWindow()), Congestion.MtuSet(newMtu))
    {
      mtu := newMtu;
      cc.SetMtu(newMtu);
    }

    method Send(data: Bytes, rel: Reliability, ch: int, priority: nat) returns (ok: bool)
      requires Valid() && priority < SenderSpec.PRIORITIES
      modifies tx
      ensures Valid() && (tx.abs, ok) == SenderSpec.Send(old(tx.abs), data, rel, ch, priority, mtu)
    {
      ok := tx.Send(data, rel, ch, priority, mtu);
    }

    /** What makes an arriving datagram mean what its unbounded reading says:
        counters span less than the circle, and a data datagram is n carrying ts. */
    ghost predicate Readable(raw: Bytes, now: real, n: int, ts: seq<TFrame>)
      reads tx, rx
    {
      S.Narrow(tx.abs, 0)
      && (Parse(raw).Some? && Parse(raw).value.Data? ==>
            Parse(raw).value.number == Wire(n) && Parse(raw).value.frames == WireFrames(ts)
            && R.DataOk(rx.abs, n, ts, now, timeout))
    }

    /** `on_datagram_received`: malformed bytes change nothing, an ACK or NAK
        changes the send side only, data the receive side only. */
    method OnDatagramReceived(raw: Bytes, now: real, ghost n: int, ghost ts: seq<TFrame>)
      returns (ghost victims: seq<int>)
      requires Valid() && Readable(raw, now, n, ts)
      modifies cc, tx, rx, rx.receivedDatagrams, rx.reliableWindow
      ensures Valid()
      ensures match Parse(raw)
        case None => tx.abs == old(tx.abs) && rx.abs == old(rx.abs) && cc.CurrentWindow() == old(cc.CurrentWindow())
        case Some(Ack(_, ranges)) =>
          tx.HasAcked(old(tx.abs), old(cc.CurrentWindow()), old(cc.CurrentRtt()), now, S.NamedBy(old(tx.abs), ranges))
          && rx.abs == old(rx.abs)
        case Some(Nak(ranges)) =>
          tx.HasNakked(old(tx.abs), old(cc.CurrentWindow()), S.NamedBy(old(tx.abs), ranges)) && rx.abs == old(rx.abs)
        case Some(Data(_, _, _, _, _)) =>
          tx.abs == old(tx.abs) && cc.CurrentWindow() == old(cc.CurrentWindow()) && Taken(old(rx.abs), now, n, ts, victims)
    {
      var header := Codec.DecodeDatagram(raw);
      if header.Some? && !header.value.Data? {
        ParsedRangesFit(raw);
      }
      victims := Dispatch(header, now, n, ts);
    }

    method Dispatch(header: Option<Datagram>, now: real, ghost n: int, ghost ts: seq<TFrame>) returns (ghost victims: seq<int>)
      requires Valid() && S.Narrow(tx.abs, 0)
      requires header.Some? && !header.value.Data? ==> forall r <- header.value.ranges :: RangeFits(r)
      requires header.Some? && header.value.Data? ==>
        header.value.number == Wire(n) && header.value.frames == WireFrames(ts) && R.DataOk(rx.abs, n, ts, now, timeout)
      modifies cc, tx, rx, rx.receivedDatagrams, rx.reliableWindow
      ensures Valid()
      ensures match header
        case None => tx.abs == old(tx.abs) && rx.abs == old(rx.abs) && cc.CurrentWindow() == old(cc.CurrentWindow())
        case Some(Ack(_, ranges)) =>
          tx.HasAcked(old(tx.abs), old(cc.CurrentWindow()), old(cc.CurrentRtt()), now, S.NamedBy(old(tx.abs), ranges))
          && rx.abs == old(rx.abs)
        case Some(Nak(ranges)) =>
          tx.HasNakked(old(tx.abs), old(cc.CurrentWindow()), S.NamedBy(old(tx.abs), ranges)) && rx.abs == old(rx.abs)
        case Some(Data(_, _, _, _, _)) =>
          tx.abs == old(tx.abs) && cc.CurrentWindow() == old(cc.CurrentWindow()) && Taken(old(rx.abs), now, n, ts, victims)
    {
      victims := [];
      match header {
        case None =>
        case Some(Ack(_, ranges)) => OnAck(ranges, now);
        case Some(Nak(ranges)) => OnNak(ranges);
        case Some(Data(number, _, _, _, frames)) => victims := OnData(number, frames, now, n, ts);
      }
    }

    /** Datagram n, carrying ts, has been taken in from state r. */
    ghost predicate Taken(r: ReceiverSpec.Receiver, now: real, n: int, ts: seq<TFrame>, victims: seq<int>)
      reads this, rx
    {
      |victims| == |ts| && (forall t <- ts :: ReceiverSpec.ChannelFits(t)) && ReceiverSpec.Shaped(r)
      && rx.abs == ReceiverSpec.HandleData(r, n, ts, now, timeout, victims)
      && R.DataVictimsOk(r, n, ts, now, timeout, victims)
    }

    method OnAck(ranges: seq<Range>, now: real)
      requires Valid() && S.Narrow(tx.abs, 0) && forall r <- ranges :: RangeFits(r)
      modifies cc, tx
      ensures Valid()
      ensures tx.HasAcked(old(tx.abs), old(cc.CurrentWindow()), old(cc.CurrentRtt()), now, S.NamedBy(old(tx.abs), ranges))
    {
      tx.HandleAck(ranges, now);
    }

    method OnNak(ranges: seq<Range>)
      requires Valid() && S.Narrow(tx.abs, 0) && forall r <- ranges :: RangeFits(r)
      modifies cc, tx
      ensures Valid() && tx.HasNakked(old(tx.abs), old(cc.CurrentWindow()), S.NamedBy(old(tx.abs), ranges))
    {
      tx.HandleNak(ranges);
    }

    method OnData(number: int, frames: seq<MessageFrame>, now: real, ghost n: int, ghost ts: seq<TFrame>)
      returns (ghost victims: seq<int>)
      requires Valid() && number == Wire(n) && frames == WireFrames(ts) && R.DataOk(rx.abs, n, ts, now, timeout)
      modifies cc`oldestUnsentAck, cc`expectedNextSeq, cc`expected, rx, rx.receivedDatagrams, rx.reliableWindow
      ensures Valid() && Taken(old(rx.abs), now, n, ts, victims)
    {
      victims := rx.HandleData(number, frames, now, n, ts);
    }

    /** `update`: ACKs if due, NAKs, then resends and new datagrams within the window. */
    method Update(now: real) returns (acks: seq<Bytes>, naks: seq<Bytes>, data: seq<Bytes>, ghost a: SenderSpec.Action, sent: bool)
      requires Valid() && S.CanTick(tx.abs)
      modifies cc, tx, rx
      ensures Valid() && S.Ticked(old(tx.abs), a, mtu, tx.abs, data) && a.now == now && a.timeout == timeout
      ensures a.cwnd == cc.cwnd && a.rto == old(Congestion.Rto(cc.CurrentRtt()))
      ensures cc.CurrentWindow() ==
              tx.Steady(if a.order != [] then Congestion.Resent(old(cc.CurrentWindow())) else old(cc.CurrentWindow()))
      ensures rx.abs == ReceiverSpec.Ticked(old(rx.abs), now, timeout, sent)
      ensures sent <==> old(rx.ackRanges) != [] && old(Congestion.AckDue(cc.lastRtt, cc.oldestUnsentAck, now))
      ensures Ranges.PacketsOf(acks, if sent then old(rx.ackRanges) else [], mtu, true)
      ensures Ranges.PacketsOf(naks, old(rx.nakRanges), mtu, false)
      ensures cc.oldestUnsentAck == if sent then 0.0 else old(cc.oldestUnsentAck)
    {
      acks, naks, sent := Report(now);
      data, a := Transmit(now);
    }

    method Report(now: real) returns (acks: seq<Bytes>, naks: seq<Bytes>, sent: bool)
      requires Valid()
      modifies cc`oldestUnsentAck, rx
      ensures sent <==> old(rx.ackRanges) != [] && old(Congestion.AckDue(cc.lastRtt, cc.oldestUnsentAck, now))
      ensures Valid() && rx.abs == ReceiverSpec.Ticked(old(rx.abs), now, timeout, sent)
      ensures Ranges.PacketsOf(acks, if sent then old(rx.ackRanges) else [], mtu, true)
      ensures Ranges.PacketsOf(naks, old(rx.nakRanges), mtu, false)
      ensures cc.oldestUnsentAck == if sent then 0.0 else old(cc.oldestUnsentAck)
    {
      acks, naks, sent := rx.Tick(mtu, now);
    }

    method Transmit(now: real) returns (data: seq<Bytes>, ghost a: SenderSpec.Action)
      requires Valid() && S.CanTick(tx.abs)
      modifies cc, tx
      ensures Valid() && S.Ticked(old(tx.abs), a, mtu, tx.abs, data) && a.now == now && a.timeout == timeout
      ensures a.cwnd == cc.cwnd && a.rto == old(Congestion.Rto(cc.CurrentRtt()))
      ensures cc.CurrentWindow() ==
              tx.Steady(if a.order != [] then Congestion.Resent(old(cc.CurrentWindow())) else old(cc.CurrentWindow()))
      ensures cc.oldestUnsentAck == old(cc.oldestUnsentAck)
    {
      data, a := tx.Update(mtu, now, timeout);
      assert rx.Inside();
    }
  }
}
