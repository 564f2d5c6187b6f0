/** The bytes of datagrams and frames, written out (_wire.py:36-71, 118-184,
    311-420).  The round trips of WireFormat hold of any layout that encoder and
    decoder share; these are the bytes RakNet expects. */
module Layouts {
  import opened Types
  import opened BitSpec
  import opened WireFormat

  /** The 24-bit number with low byte a. */
  function Num24(a: byte, b: byte, c: byte): (n: nat)
    ensures n < 0x1000000
  {
    a + 256 * b + 65536 * c
  }

  function Num16(hi: byte, lo: byte): (n: nat)
    ensures n < 0x10000
  {
    256 * hi + lo
  }

  function Num32(a: byte, b: byte, c: byte, d: byte): nat {
    65536 * Num16(a, b) + Num16(c, d)
  }

  lemma Little24(a: byte, b: byte, c: byte)
    ensures LittleEndian(Num24(a, b, c), 3) == [a, b, c]
  {
    var n := Num24(a, b, c);
    assert n % 256 == a && n / 256 == b + 256 * c && (b + 256 * c) % 256 == b && (b + 256 * c) / 256 == c;
    assert LittleEndian(c, 1) == [c] + LittleEndian(c / 256, 0);
    assert LittleEndian(b + 256 * c, 2) == [b] + LittleEndian(c, 1);
  }

  lemma Big16(hi: byte, lo: byte)
    ensures BigEndian(Num16(hi, lo), 2) == [hi, lo]
  {
    assert Num16(hi, lo) % 256 == lo && Num16(hi, lo) / 256 == hi;
    assert BigEndian(hi, 1) == BigEndian(hi / 256, 0) + [hi];
  }

  lemma Big32(a: byte, b: byte, c: byte, d: byte)
    ensures BigEndian(Num32(a, b, c, d), 4) == [a, b, c, d]
  {
    var n := Num32(a, b, c, d);
    var m := 256 * Num16(a, b) + c;
    assert n == 256 * m + d && n % 256 == d && n / 256 == m;
    assert m % 256 == c && m / 256 == Num16(a, b);
    assert BigEndian(m, 3) == BigEndian(Num16(a, b), 2) + [c];
    Big16(a, b);
  }

  // ---------- range lists ----------

  lemma OneRange(r: Range)
    ensures RangesBytes([r]) == RangeBytes(r)
  {
    assert [r][1..] == [] && RangeBytes(r) + [] == RangeBytes(r);
  }

  /** An ACK of a single number is eight bytes: flags, count, the tag 1, the number. */
  lemma AckOfOne(a: byte, b: byte, c: byte)
    ensures DatagramBytes(Ack(false, [Range(Num24(a, b, c), Num24(a, b, c))])) == [0xC0, 0, 1, 1, a, b, c]
  {
    var r := Range(Num24(a, b, c), Num24(a, b, c));
    Little24(a, b, c);
    Big16(0, 1);
    OneRange(r);
  }

  /** An ACK of a range has the tag 0 and both ends. */
  lemma AckOfRange(a: byte, b: byte, c: byte, x: byte, y: byte, z: byte)
    requires Num24(a, b, c) != Num24(x, y, z)
    ensures DatagramBytes(Ack(false, [Range(Num24(a, b, c), Num24(x, y, z))])) == [0xC0, 0, 1, 0, a, b, c, x, y, z]
  {
    Little24(a, b, c);
    Little24(x, y, z);
    Big16(0, 1);
    OneRange(Range(Num24(a, b, c), Num24(x, y, z)));
  }

  /** A NAK differs in its flags only. */
  lemma NakLikeAck(rs: seq<Range>)
    ensures |DatagramBytes(Nak(rs))| == |DatagramBytes(Ack(false, rs))| > 0
    ensures DatagramBytes(Nak(rs))[0] == 0xA0 && DatagramBytes(Nak(rs))[1..] == DatagramBytes(Ack(false, rs))[1..]
  {
    Behind(0xA0, RangeListBytes(rs));
    Behind(0xC0, [] + RangeListBytes(rs));
    Behind(0xC0, RangeListBytes(rs));
  }

  lemma Behind(first: byte, rest: Bytes)
    ensures ([first] + rest)[0] == first && ([first] + rest)[1..] == rest && [] + rest == rest
  {
  }

  /** The list is its count in two bytes, high one first, and its ranges one after the other. */
  lemma {:induction false} ListJoins(rs: seq<Range>, r: Range)
    ensures RangesBytes(rs + [r]) == RangesBytes(rs) + RangesBytes([r])
    decreases |rs|
  {
    OneRange(r);
    if rs == [] {
      assert rs + [r] == [r];
    } else {
      assert (rs + [r])[1..] == rs[1..] + [r];
      ListJoins(rs[1..], r);
    }
  }

  /** The decoder takes any tag but 0 for a single number. */
  lemma AnyTagIsSingle(tag: byte, a: byte, b: byte, c: byte)
    requires tag != 0
    ensures RangeAt([tag, a, b, c], 0) == Some((Range(Num24(a, b, c), Num24(a, b, c)), 4))
  {
    var bs := [tag, a, b, c];
    assert bs[0..1] == [tag] && bs[1..4] == [a, b, c];
    OneByte(tag);
    ThreeBytes(a, b, c);
  }

  lemma OneByte(t: byte)
    ensures FromBigEndian([t]) == t
  {
    assert [t][..0] == [];
  }

  lemma ThreeBytes(a: byte, b: byte, c: byte)
    ensures FromLittleEndian([a, b, c]) == Num24(a, b, c)
  {
    assert [a, b, c][1..] == [b, c] && [b, c][1..] == [c] && [c][1..] == [];
    assert FromLittleEndian([c]) == c && FromLittleEndian([b, c]) == b + 256 * c;
  }

  // ---------- data datagrams ----------

  /** Flags, the number with its low byte first, and the frames. */
  lemma DataHeader(a: byte, b: byte, c: byte, continuous: bool, fs: seq<MessageFrame>)
    ensures DatagramBytes(Datagram.Data(Num24(a, b, c), false, continuous, false, fs))
            == [if continuous then 0x88 else 0x80, a, b, c] + FramesBytes(fs)
  {
    Little24(a, b, c);
    assert [if continuous then 0x88 else 0x80] + ([a, b, c] + FramesBytes(fs))
        == [if continuous then 0x88 else 0x80, a, b, c] + FramesBytes(fs);
  }

  /** The first byte: the mode in the top three bits, ACK_RECEIPT variants as
      their base mode, and bit 4 for a fragment. */
  lemma FirstBytes(f: MessageFrame)
    ensures FrameBytes(f)[0] == (if f.splitCount > 0 then 0x10 else 0) +
      match f.reliability
      case UNRELIABLE => 0x00
      case UNRELIABLE_SEQUENCED => 0x20
      case RELIABLE => 0x40
      case RELIABLE_ORDERED => 0x60
      case RELIABLE_SEQUENCED => 0x80
      case UNRELIABLE_WITH_ACK_RECEIPT => 0x00
      case RELIABLE_WITH_ACK_RECEIPT => 0x40
      case RELIABLE_ORDERED_WITH_ACK_RECEIPT => 0x60
  {
  }

  /** An unreliable frame is its first byte, its length in bits, and the payload. */
  lemma UnreliableFrame(hi: byte, lo: byte, data: Bytes)
    ensures FrameBytes(MessageFrame(UNRELIABLE, data, Num16(hi, lo), 0, 0, 0, 0, 0, 0, 0)) == [0x00, hi, lo] + data
  {
    Big16(hi, lo);
    assert [0x00] + ([hi, lo] + ([] + ([] + ([] + ([] + data))))) == [0x00, hi, lo] + data;
  }

  /** A reliable one has its number in between, low byte first. */
  lemma ReliableFrame(hi: byte, lo: byte, a: byte, b: byte, c: byte, data: Bytes)
    ensures FrameBytes(MessageFrame(RELIABLE, data, Num16(hi, lo), Num24(a, b, c), 0, 0, 0, 0, 0, 0))
            == [0x40, hi, lo, a, b, c] + data
  {
    Big16(hi, lo);
    Little24(a, b, c);
    assert [0x40] + ([hi, lo] + ([a, b, c] + ([] + ([] + ([] + data))))) == [0x40, hi, lo, a, b, c] + data;
  }

  /** An ordered one also its ordering index and channel. */
  lemma OrderedFrame(hi: byte, lo: byte, a: byte, b: byte, c: byte, x: byte, y: byte, z: byte, ch: byte, data: Bytes)
    ensures FrameBytes(MessageFrame(RELIABLE_ORDERED, data, Num16(hi, lo), Num24(a, b, c), 0, Num24(x, y, z), ch, 0, 0, 0))
            == [0x60, hi, lo, a, b, c, x, y, z, ch] + data
  {
    var f := MessageFrame(RELIABLE_ORDERED, data, Num16(hi, lo), Num24(a, b, c), 0, Num24(x, y, z), ch, 0, 0, 0);
    Big16(hi, lo);
    Little24(a, b, c);
    Little24(x, y, z);
    OrderedBehind(f);
    OrderingFieldIs(f, [x, y, z], ch);
    FirstBytes(f);
    assert [0x60] + ([hi, lo] + ([a, b, c] + ([x, y, z, ch] + data))) == [0x60, hi, lo, a, b, c, x, y, z, ch] + data;
  }

  lemma OrderingFieldIs(f: MessageFrame, oi: Bytes, ch: byte)
    requires f.orderingChannel == ch && LittleEndian(f.orderingIndex, 3) == oi
    ensures OrderingField(f) == oi + [ch]
  {
  }

  lemma OrderedBehind(f: MessageFrame)
    requires f.reliability == RELIABLE_ORDERED && f.splitCount == 0
    ensures FrameBytes(f)
            == [HeadByte(f)] + (BigEndian(f.bitLength, 2) + (LittleEndian(f.reliableNumber, 3) + (OrderingField(f) + f.data)))
  {
    NoSplitField(f);
    NoSequencing(f);
  }

  lemma NoSplitField(f: MessageFrame)
    requires f.splitCount == 0
    ensures FromSplit(f) == f.data
  {
    Behind(0, f.data);
  }

  lemma NoSequencing(f: MessageFrame)
    requires !f.reliability.IsSequenced()
    ensures FromSequencing(f) == FromOrdering(f)
  {
    Behind(0, FromOrdering(f));
  }

  /** The bytes of a fragment sent RELIABLE_SEQUENCED, which has every field: first
      byte, length in bits, reliable number, sequencing index, ordering index,
      channel, fragment count, identifier and index, payload. */
  datatype Split = Split(count: seq<byte>, id: seq<byte>, index: seq<byte>)

  predicate SplitShaped(s: Split) {
    |s.count| == 4 && |s.id| == 2 && |s.index| == 4
  }

  function Fragmented(len: seq<byte>, num: seq<byte>, sq: seq<byte>, oi: seq<byte>, ch: byte, s: Split, data: Bytes): MessageFrame
    requires SplitShaped(s) && |len| == 2 && |num| == |sq| == |oi| == 3
  {
    MessageFrame(RELIABLE_SEQUENCED, data, Num16(len[0], len[1]), Num24(num[0], num[1], num[2]), Num24(sq[0], sq[1], sq[2]),
                 Num24(oi[0], oi[1], oi[2]), ch, Num32(s.count[0], s.count[1], s.count[2], s.count[3]),
                 Num16(s.id[0], s.id[1]), Num32(s.index[0], s.index[1], s.index[2], s.index[3]))
  }

  lemma FragmentFrame(len: seq<byte>, num: seq<byte>, sq: seq<byte>, oi: seq<byte>, ch: byte, s: Split, data: Bytes)
    requires SplitShaped(s) && |len| == 2 && |num| == |sq| == |oi| == 3
    requires Num32(s.count[0], s.count[1], s.count[2], s.count[3]) > 0
    ensures FrameBytes(Fragmented(len, num, sq, oi, ch, s, data))
            == [0x90] + len + num + sq + oi + [ch] + s.count + s.id + s.index + data
  {
    var f := Fragmented(len, num, sq, oi, ch, s, data);
    Two(len);
    Three(num);
    Three(sq);
    Three(oi);
    Four(s.count);
    Two(s.id);
    Four(s.index);
    FieldsBehind(f, num, sq, oi, ch, s);
    FieldsJoin(len, num, sq, oi, [ch], s.count, s.id, s.index, data);
  }

  lemma Two(bs: Bytes)
    requires |bs| == 2
    ensures BigEndian(Num16(bs[0], bs[1]), 2) == bs
  {
    Big16(bs[0], bs[1]);
  }

  lemma Three(bs: Bytes)
    requires |bs| == 3
    ensures LittleEndian(Num24(bs[0], bs[1], bs[2]), 3) == bs
  {
    Little24(bs[0], bs[1], bs[2]);
  }

  lemma Four(bs: Bytes)
    requires |bs| == 4
    ensures BigEndian(Num32(bs[0], bs[1], bs[2], bs[3]), 4) == bs
  {
    Big32(bs[0], bs[1], bs[2], bs[3]);
  }

  lemma FieldsBehind(f: MessageFrame, num: Bytes, sq: Bytes, oi: Bytes, ch: byte, s: Split)
    requires f.reliability == RELIABLE_SEQUENCED && f.splitCount > 0 && f.orderingChannel == ch
    requires LittleEndian(f.reliableNumber, 3) == num && LittleEndian(f.sequencingIndex, 3) == sq
    requires LittleEndian(f.orderingIndex, 3) == oi
    requires BigEndian(f.splitCount, 4) == s.count && BigEndian(f.splitId, 2) == s.id && BigEndian(f.splitIndex, 4) == s.index
    ensures FrameBytes(f) == [0x90]
            + (BigEndian(f.bitLength, 2) + (num + (sq + ((oi + [ch]) + ((s.count + (s.id + s.index)) + f.data)))))
  {
  }

  lemma FieldsJoin(len: Bytes, num: Bytes, sq: Bytes, oi: Bytes, ch: Bytes, count: Bytes, id: Bytes, index: Bytes, data: Bytes)
    ensures [0x90 as byte] + len + num + sq + oi + ch + count + id + index + data
            == [0x90] + (len + (num + (sq + ((oi + ch) + ((count + (id + index)) + data)))))
  {
  }

  // ---------- what the decoder lets through ----------

  /** What the receiver relies on in a frame from the wire. */
  predicate Usable(f: MessageFrame) {
    f.data != [] && |f.data| == (f.bitLength + 7) / 8
    && (f.reliability.IsOrdered() ==> 0 <= f.orderingChannel < 32)
    && (f.splitCount > 0 ==> 0 <= f.splitIndex < f.splitCount)
    && (!f.reliability.IsReliable() ==> f.reliableNumber == 0) && (!f.reliability.IsOrdered() ==> f.orderingChannel == 0)
  }

  lemma FrameUsable(b: Bytes, p: nat)
    requires FrameAt(b, p).Frame?
    ensures Usable(FrameAt(b, p).frame)
  {
  }

  /** Whatever bytes come in, every decoded frame has a payload of its length, a
      channel below 32 if ordered, and an index below its count if split. */
  lemma {:induction false} DecodedFramesUsable(b: Bytes, p: nat)
    requires FramesAt(b, p).Some?
    ensures forall f <- FramesAt(b, p).value :: Usable(f)
    decreases |b| - p
  {
    if |b| >= p + 4 && FrameAt(b, p).Frame? {
      FrameUsable(b, p);
      DecodedFramesUsable(b, FrameAt(b, p).next);
    }
  }
}
