/** Encoding and decoding over a bit stream (_wire.py), proved to produce and
    to parse exactly the byte layouts of WireFormat. */
module Codec {
  import opened Types
  import opened Bits
  import opened BitSpec
  import opened BitStreams
  import opened WireFormat

  /** Bits written from a byte boundary and then aligned make one byte. */
  lemma FlushedByte(before: Bytes, bits: seq<bool>, after: Bytes, v: byte)
    requires BytesBits(after) == Pad(BytesBits(before) + bits) && |bits| <= 8
    requires Pad(bits) == BitsOf(v, 8)
    ensures after == before + [v]
  {
    assert BytesBits([v]) == BitsOf(v, 8) by { ByteBitsChunk([v], 0); }
    BytesBitsAppend(before, [v]);
    PadBehind(before, bits);
    BytesOfBits(after);
    BytesOfBits(before + [v]);
  }

  lemma PadBehind(before: Bytes, bits: seq<bool>)
    ensures Pad(BytesBits(before) + bits) == BytesBits(before) + Pad(bits)
  {
  }

  lemma BitTable(v: int)
    ensures BitsOf(v, 8) == [v / 128 % 2 == 1, v / 64 % 2 == 1, v / 32 % 2 == 1, v / 16 % 2 == 1,
                             v / 8 % 2 == 1, v / 4 % 2 == 1, v / 2 % 2 == 1, v % 2 == 1]
  {
    Pow2Table();
    forall j: nat | j < 8
      ensures BitsOf(v, 8)[j] == BitOf(v, 7 - j)
    {
      BitsOfAt(v, 8, j);
    }
  }

  lemma PadEight(s: seq<bool>)
    requires 0 < |s| <= 8
    ensures Pad(s) == s + seq(8 - |s|, _ => false)
  {
  }

  lemma FourZeros(s: seq<bool>)
    ensures Number(s + [false, false, false, false]) == 16 * Number(s)
  {
    var s1 := s + [false];
    var s2 := s1 + [false];
    var s3 := s2 + [false];
    NumberSnoc(s, false);
    NumberSnoc(s1, false);
    NumberSnoc(s2, false);
    NumberSnoc(s3, false);
    assert s3 + [false] == s + [false, false, false, false];
  }

  lemma CodeBits(c: nat)
    requires c < 8
    ensures Number(BitsOf(c, 3)) == c
  {
    NumberOfBits(c, 3);
    Pow2Table();
  }

  lemma HeadPad(code: seq<bool>, split: bool)
    requires |code| == 3
    ensures Pad(code + [split]) == BitsOf(32 * Number(code) + FlagBit(split, 16), 8)
  {
    var all := code + [split] + [false, false, false, false];
    NumberSnoc(code, split);
    FourZeros(code + [split]);
    BitsOfNumber(all);
    PadEight(code + [split]);
    assert Pad(code + [split]) == all;
  }

  lemma HeadBitsByte(f: MessageFrame)
    ensures Pad(BitsOf(f.reliability.Base().Code(), 3) + [f.splitCount > 0]) == BitsOf(HeadByte(f), 8)
  {
    CodeBits(f.reliability.Base().Code());
    HeadPad(BitsOf(f.reliability.Base().Code(), 3), f.splitCount > 0);
  }

  lemma NumberThree(s: seq<bool>, d: bool, e: bool, f: bool)
    ensures Number(s + [d, e, f]) == 8 * Number(s) + FlagBit(d, 4) + FlagBit(e, 2) + FlagBit(f, 1)
  {
    NumberSnoc(s, d);
    NumberSnoc(s + [d], e);
    NumberSnoc(s + [d] + [e], f);
    assert s + [d] + [e] + [f] == s + [d, e, f];
  }

  lemma NumberSix(a: bool, b: bool, c: bool, d: bool, e: bool, f: bool)
    ensures Number([a, b, c, d, e, f])
            == FlagBit(a, 32) + FlagBit(b, 16) + FlagBit(c, 8) + FlagBit(d, 4) + FlagBit(e, 2) + FlagBit(f, 1)
  {
    NumberThree([], a, b, c);
    assert [] + [a, b, c] == [a, b, c];
    NumberThree([a, b, c], d, e, f);
    assert [a, b, c] + [d, e, f] == [a, b, c, d, e, f];
  }

  lemma FlagsByte(a: bool, b: bool, c: bool, d: bool, e: bool, f: bool)
    ensures var v := FlagBit(a, 128) + FlagBit(b, 64) + FlagBit(c, 32) + FlagBit(d, 16) + FlagBit(e, 8) + FlagBit(f, 4);
      v < 256 && BitsOf(v, 8) == [a, b, c, d, e, f, false, false]
  {
    var s := [a, b, c, d, e, f];
    NumberSix(a, b, c, d, e, f);
    NumberSnoc(s, false);
    NumberSnoc(s + [false], false);
    assert s + [false] + [false] == [a, b, c, d, e, f, false, false];
    BitsOfNumber([a, b, c, d, e, f, false, false]);
  }

  // ---------- whole bytes ----------

  /** A stream whose cursors stand at byte boundaries, seen as its bytes. */
  ghost predicate Whole(bs: BitStream)
    reads bs
  {
    bs.writePos == 8 * |bs.buf| && bs.readPos % 8 == 0
  }

  method PutByte(bs: BitStream, v: int)
    requires Whole(bs)
    modifies bs`buf, bs`writePos
    ensures Whole(bs) && bs.buf == old(bs.buf) + [v % 256]
  {
    bs.WriteUInt8(v);
  }

  method PutUInt24(bs: BitStream, v: int)
    requires Whole(bs)
    modifies bs`buf, bs`writePos
    ensures Whole(bs) && bs.buf == old(bs.buf) + LittleEndian(v, 3)
  {
    bs.WriteUInt24(v);
  }

  method PutUInt16(bs: BitStream, v: int)
    requires Whole(bs)
    modifies bs`buf, bs`writePos
    ensures Whole(bs) && bs.buf == old(bs.buf) + BigEndian(v, 2)
  {
    bs.WriteUInt16(v);
  }

  method PutUInt32(bs: BitStream, v: int)
    requires Whole(bs)
    modifies bs`buf, bs`writePos
    ensures Whole(bs) && bs.buf == old(bs.buf) + BigEndian(v, 4)
  {
    bs.WriteUInt32(v);
  }

  method PutData(bs: BitStream, data: Bytes)
    requires Whole(bs)
    modifies bs`buf, bs`writePos
    ensures Whole(bs) && bs.buf == old(bs.buf) + data
  {
    bs.WriteBytes(data);
  }

  method TakeUInt24(bs: BitStream) returns (r: Option<nat>)
    requires Whole(bs)
    modifies bs`readPos
    ensures Whole(bs)
    ensures match LittleAt(bs.buf, old(bs.readPos) / 8)
      case None => r == None
      case Some((v, q)) => r == Some(v) && bs.readPos == 8 * q
  {
    r := bs.ReadUInt24();
  }

  method TakeUInt(bs: BitStream, width: nat) returns (r: Option<nat>)
    requires Whole(bs)
    modifies bs`readPos
    ensures Whole(bs)
    ensures match BigAt(bs.buf, old(bs.readPos) / 8, width)
      case None => r == None
      case Some((v, q)) => r == Some(v) && bs.readPos == 8 * q
  {
    r := bs.ReadUInt(width);
  }

  method TakeData(bs: BitStream, n: nat) returns (r: Option<Bytes>)
    requires Whole(bs)
    modifies bs`readPos
    ensures Whole(bs) && (r.Some? <==> old(bs.readPos) / 8 + n <= |bs.buf|)
    ensures r.Some? ==> var k := old(bs.readPos) / 8; r.value == bs.buf[k..k + n] && bs.readPos == 8 * (k + n)
  {
    r := bs.ReadBytes(n);
  }

  lemma Assoc(a: Bytes, b: Bytes, c: Bytes)
    ensures a + b + c == a + (b + c)
  {
  }

  // ---------- encoding ----------

  method WriteRange(bs: BitStream, r: Range)
    requires Whole(bs)
    modifies bs`buf, bs`writePos
    ensures Whole(bs) && bs.buf == old(bs.buf) + RangeBytes(r)
  {
    if r.lo == r.hi {
      PutByte(bs, 1);
      PutUInt24(bs, r.lo);
      Assoc(old(bs.buf), [1], LittleEndian(r.lo, 3));
    } else {
      PutByte(bs, 0);
      PutUInt24(bs, r.lo);
      PutUInt24(bs, r.hi);
      Assoc(old(bs.buf) + [0], LittleEndian(r.lo, 3), LittleEndian(r.hi, 3));
      Assoc(old(bs.buf), [0], LittleEndian(r.lo, 3) + LittleEndian(r.hi, 3));
    }
  }

  lemma RangesPeel(buf: Bytes, rs: seq<Range>, i: nat)
    requires i < |rs|
    ensures buf + RangesBytes(rs[i..]) == buf + RangeBytes(rs[i]) + RangesBytes(rs[i + 1..])
  {
    assert rs[i..][1..] == rs[i + 1..];
    Assoc(buf, RangeBytes(rs[i]), RangesBytes(rs[i + 1..]));
  }

  method EncodeRangeList(bs: BitStream, ranges: seq<Range>)
    requires Whole(bs)
    modifies bs`buf, bs`writePos
    ensures Whole(bs) && bs.buf == old(bs.buf) + RangeListBytes(ranges)
  {
    bs.AlignWriteToByte();
    PutUInt16(bs, |ranges|);
    ghost var all := bs.buf + RangesBytes(ranges);
    assert ranges[0..] == ranges;
    for i := 0 to |ranges|
      invariant Whole(bs) && bs.buf + RangesBytes(ranges[i..]) == all
    {
      RangesPeel(bs.buf, ranges, i);
      WriteRange(bs, ranges[i]);
    }
    assert bs.buf + [] == bs.buf;
    Assoc(old(bs.buf), BigEndian(|ranges|, 2), RangesBytes(ranges));
  }

  method WriteHead(bs: BitStream, f: MessageFrame)
    requires Whole(bs)
    modifies bs`buf, bs`writePos
    ensures Whole(bs) && bs.buf == old(bs.buf) + [HeadByte(f)]
  {
    bs.AlignWriteToByte();
    ghost var before := bs.buf;
    bs.WriteBits(f.reliability.Base().Code(), 3);
    bs.WriteBit(f.splitCount > 0);
    ghost var bits := BitsOf(f.reliability.Base().Code(), 3) + [f.splitCount > 0];
    assert bs.Written() == BytesBits(before) + bits;
    bs.AlignWriteToByte();
    HeadBitsByte(f);
    FlushedByte(before, bits, bs.buf, HeadByte(f));
  }

  method WriteOptionalUInt24(bs: BitStream, c: bool, v: int)
    requires Whole(bs)
    modifies bs`buf, bs`writePos
    ensures Whole(bs) && bs.buf == old(bs.buf) + Optional(c, LittleEndian(v, 3))
  {
    if c {
      PutUInt24(bs, v);
    }
  }

  method WriteOrdering(bs: BitStream, f: MessageFrame)
    requires Whole(bs)
    modifies bs`buf, bs`writePos
    ensures Whole(bs) && bs.buf == old(bs.buf) + Optional(f.reliability.IsOrdered(), OrderingField(f))
  {
    if f.reliability.IsOrdered() {
      PutUInt24(bs, f.orderingIndex);
      PutByte(bs, f.orderingChannel);
      Assoc(old(bs.buf), LittleEndian(f.orderingIndex, 3), [f.orderingChannel % 256]);
    }
  }

  method WriteSplit(bs: BitStream, f: MessageFrame)
    requires Whole(bs)
    modifies bs`buf, bs`writePos
    ensures Whole(bs) && bs.buf == old(bs.buf) + Optional(f.splitCount > 0, SplitField(f))
  {
    if f.splitCount > 0 {
      PutUInt32(bs, f.splitCount);
      PutUInt16(bs, f.splitId);
      PutUInt32(bs, f.splitIndex);
      Assoc(old(bs.buf) + BigEndian(f.splitCount, 4), BigEndian(f.splitId, 2), BigEndian(f.splitIndex, 4));
      Assoc(old(bs.buf), BigEndian(f.splitCount, 4), BigEndian(f.splitId, 2) + BigEndian(f.splitIndex, 4));
    }
  }

  /** Everything after the length field. */
  method WriteFields(bs: BitStream, f: MessageFrame)
    requires Whole(bs)
    modifies bs`buf, bs`writePos
    ensures Whole(bs) && bs.buf == old(bs.buf) + FromNumber(f)
  {
    ghost var b0 := bs.buf;
    WriteOptionalUInt24(bs, f.reliability.IsReliable(), f.reliableNumber);
    bs.AlignWriteToByte();
    ghost var b1 := bs.buf;
    WriteOptionalUInt24(bs, f.reliability.IsSequenced(), f.sequencingIndex);
    ghost var b2 := bs.buf;
    WriteOrdering(bs, f);
    ghost var b3 := bs.buf;
    WriteSplit(bs, f);
    ghost var b4 := bs.buf;
    PutData(bs, f.data);
    FieldsCompose(f, b0, b1, b2, b3, b4);
  }

  lemma FieldsCompose(f: MessageFrame, b0: Bytes, b1: Bytes, b2: Bytes, b3: Bytes, b4: Bytes)
    requires b1 == b0 + Optional(f.reliability.IsReliable(), LittleEndian(f.reliableNumber, 3))
    requires b2 == b1 + Optional(f.reliability.IsSequenced(), LittleEndian(f.sequencingIndex, 3))
    requires b3 == b2 + Optional(f.reliability.IsOrdered(), OrderingField(f))
    requires b4 == b3 + Optional(f.splitCount > 0, SplitField(f))
    ensures b4 + f.data == b0 + FromNumber(f)
  {
    Assoc(b3, Optional(f.splitCount > 0, SplitField(f)), f.data);
    Assoc(b2, Optional(f.reliability.IsOrdered(), OrderingField(f)), FromSplit(f));
    Assoc(b1, Optional(f.reliability.IsSequenced(), LittleEndian(f.sequencingIndex, 3)), FromOrdering(f));
    Assoc(b0, Optional(f.reliability.IsReliable(), LittleEndian(f.reliableNumber, 3)), FromSequencing(f));
  }

  method EncodeMessageFrame(bs: BitStream, f: MessageFrame)
    requires Whole(bs)
    modifies bs`buf, bs`writePos
    ensures Whole(bs) && bs.buf == old(bs.buf) + FrameBytes(f)
  {
    WriteHead(bs, f);
    PutUInt16(bs, f.bitLength);
    WriteFields(bs, f);
    Assoc(old(bs.buf) + [HeadByte(f)], BigEndian(f.bitLength, 2), FromNumber(f));
    Assoc(old(bs.buf), [HeadByte(f)], BigEndian(f.bitLength, 2) + FromNumber(f));
  }

  method WriteAckFlags(bs: BitStream, hasBandwidth: bool)
    requires Whole(bs) && bs.buf == []
    modifies bs`buf, bs`writePos
    ensures Whole(bs) && bs.buf == [192 + FlagBit(hasBandwidth, 32)]
  {
    bs.WriteBit(true);
    bs.WriteBit(true);
    bs.WriteBit(hasBandwidth);
    ghost var bits := [true, true, hasBandwidth];
    assert bs.Written() == BytesBits([]) + bits;
    bs.AlignWriteToByte();
    FlagsByte(true, true, hasBandwidth, false, false, false);
    PadEight(bits);
    FlushedByte([], bits, bs.buf, 192 + FlagBit(hasBandwidth, 32));
  }

  method EncodeAck(ranges: seq<Range>, hasBandwidth: bool) returns (raw: Bytes)
    ensures raw == DatagramBytes(Ack(hasBandwidth, ranges))
  {
    var bs := new BitStream();
    WriteAckFlags(bs, hasBandwidth);
    ghost var flags := bs.buf;
    if hasBandwidth {
      PutData(bs, [0, 0, 0, 0]);
    }
    assert bs.buf == flags + Optional(hasBandwidth, [0, 0, 0, 0]);
    EncodeRangeList(bs, ranges);
    Assoc(flags, Optional(hasBandwidth, [0, 0, 0, 0]), RangeListBytes(ranges));
    raw := bs.GetData();
  }

  method WriteNakFlags(bs: BitStream)
    requires Whole(bs) && bs.buf == []
    modifies bs`buf, bs`writePos
    ensures Whole(bs) && bs.buf == [160]
  {
    bs.WriteBit(true);
    bs.WriteBit(false);
    bs.WriteBit(true);
    assert bs.Written() == BytesBits([]) + [true, false, true];
    bs.AlignWriteToByte();
    NakByteWritten(bs.buf);
  }

  lemma NakByteWritten(after: Bytes)
    requires BytesBits(after) == Pad(BytesBits([]) + [true, false, true])
    ensures after == [160]
  {
    FlagsByte(true, false, true, false, false, false);
    PadEight([true, false, true]);
    FlushedByte([], [true, false, true], after, 160);
  }

  method EncodeNak(ranges: seq<Range>) returns (raw: Bytes)
    ensures raw == DatagramBytes(Nak(ranges))
  {
    var bs := new BitStream();
    WriteNakFlags(bs);
    EncodeRangeList(bs, ranges);
    raw := bs.GetData();
  }

  /** Six flag bits, padded, are the flag byte. */
  lemma FlagByteWritten(pair: bool, cont: bool, needs: bool, after: Bytes)
    requires BytesBits(after) == Pad(BytesBits([]) + [true, false, false, pair, cont, needs])
    ensures after == [128 + FlagBit(pair, 16) + FlagBit(cont, 8) + FlagBit(needs, 4)]
  {
    FlagsByte(true, false, false, pair, cont, needs);
    PadEight([true, false, false, pair, cont, needs]);
    FlushedByte([], [true, false, false, pair, cont, needs], after,
                128 + FlagBit(pair, 16) + FlagBit(cont, 8) + FlagBit(needs, 4));
  }

  method WriteFlags(bs: BitStream, pair: bool, cont: bool, needs: bool)
    requires Whole(bs) && bs.buf == []
    modifies bs`buf, bs`writePos
    ensures Whole(bs)
    ensures bs.buf == [128 + FlagBit(pair, 16) + FlagBit(cont, 8) + FlagBit(needs, 4)]
  {
    bs.WriteBit(true);
    bs.WriteBit(false);
    bs.WriteBit(false);
    bs.WriteBit(pair);
    bs.WriteBit(cont);
    bs.WriteBit(needs);
    assert bs.Written() == BytesBits([]) + [true, false, false, pair, cont, needs];
    bs.AlignWriteToByte();
    FlagByteWritten(pair, cont, needs, bs.buf);
  }

  lemma FramesPeel(buf: Bytes, fs: seq<MessageFrame>, i: nat)
    requires i < |fs|
    ensures buf + FramesBytes(fs[i..]) == buf + FrameBytes(fs[i]) + FramesBytes(fs[i + 1..])
  {
    assert fs[i..][1..] == fs[i + 1..];
    Assoc(buf, FrameBytes(fs[i]), FramesBytes(fs[i + 1..]));
  }

  method EncodeDatagram(number: int, frames: seq<MessageFrame>, cont: bool, needs: bool, pair: bool) returns (raw: Bytes)
    ensures raw == DatagramBytes(Datagram.Data(number, pair, cont, needs, frames))
  {
    var bs := new BitStream();
    WriteDataHead(bs, number, cont, needs, pair);
    EncodeFrames(bs, frames);
    DataBytes(number, pair, cont, needs, frames);
    raw := bs.GetData();
  }

  lemma DataBytes(number: int, pair: bool, cont: bool, needs: bool, frames: seq<MessageFrame>)
    ensures DatagramBytes(Datagram.Data(number, pair, cont, needs, frames))
            == [128 + FlagBit(pair, 16) + FlagBit(cont, 8) + FlagBit(needs, 4)] + LittleEndian(number, 3) + FramesBytes(frames)
  {
    Assoc([128 + FlagBit(pair, 16) + FlagBit(cont, 8) + FlagBit(needs, 4)], LittleEndian(number, 3), FramesBytes(frames));
  }

  /** Flags and number of a data datagram. */
  method WriteDataHead(bs: BitStream, number: int, cont: bool, needs: bool, pair: bool)
    requires Whole(bs) && bs.buf == []
    modifies bs`buf, bs`writePos
    ensures Whole(bs)
    ensures bs.buf == [128 + FlagBit(pair, 16) + FlagBit(cont, 8) + FlagBit(needs, 4)] + LittleEndian(number, 3)
  {
    WriteFlags(bs, pair, cont, needs);
    PutUInt24(bs, number);
  }

  method EncodeFrames(bs: BitStream, frames: seq<MessageFrame>)
    requires Whole(bs)
    modifies bs`buf, bs`writePos
    ensures Whole(bs) && bs.buf == old(bs.buf) + FramesBytes(frames)
  {
    assert frames[0..] == frames;
    for i := 0 to |frames|
      invariant Whole(bs) && bs.buf + FramesBytes(frames[i..]) == old(bs.buf) + FramesBytes(frames)
    {
      FramesPeel(bs.buf, frames, i);
      EncodeMessageFrame(bs, frames[i]);
    }
    assert bs.buf + [] == bs.buf;
  }

  // ---------- decoding ----------

  lemma BytesBitAt(b: Bytes, p: nat, j: nat)
    requires p < |b| && j < 8
    ensures BytesBits(b)[8 * p + j] == BitsOf(b[p], 8)[j]
  {
    ByteBitsChunk(b, p);
    assert BytesBits(b)[8 * p..8 * p + 8][j] == BytesBits(b)[8 * p + j];
  }

  lemma NumberOfThree(a: bool, b: bool, c: bool)
    ensures Number([a, b, c]) == (if a then 4 else 0) + (if b then 2 else 0) + (if c then 1 else 0)
  {
    assert [a] == [] + [a] && [a, b] == [a] + [b] && [a, b, c] == [a, b] + [c];
    NumberSnoc([], a);
    NumberSnoc([a], b);
    NumberSnoc([a, b], c);
  }

  lemma TopThree(v: byte)
    ensures Number(BitsOf(v, 8)[..3]) == v / 32
  {
    var a, b, c := v / 128 % 2 == 1, v / 64 % 2 == 1, v / 32 % 2 == 1;
    assert BitsOf(v, 8)[..3] == [a, b, c] by { BitTable(v); }
    NumberOfThree(a, b, c);
    ThreeOfByte(v);
  }

  lemma ThreeOfByte(v: int)
    requires 0 <= v < 256
    ensures v / 32 == (if v / 128 % 2 == 1 then 4 else 0) + (if v / 64 % 2 == 1 then 2 else 0) + (if v / 32 % 2 == 1 then 1 else 0)
  {
  }

  lemma FrontOfSlice(s: seq<bool>, i: nat, j: nat, k: nat)
    requires i <= i + k <= j <= |s|
    ensures s[i..j][..k] == s[i..i + k]
  {
  }

  lemma TopThreeAt(b: Bytes, p: nat)
    requires p < |b|
    ensures 8 * p + 8 <= |BytesBits(b)| && Number(BytesBits(b)[8 * p..8 * p + 3]) == b[p] / 32
  {
    ByteBitsChunk(b, p);
    FrontOfSlice(BytesBits(b), 8 * p, 8 * p + 8, 3);
    TopThree(b[p]);
  }

  /** The three bits of the delivery mode. */
  method ReadCode(bs: BitStream) returns (code: nat)
    requires Whole(bs) && bs.readPos < 8 * |bs.buf|
    modifies bs`readPos
    ensures bs.Valid() && bs.readPos == old(bs.readPos) + 3 && code == bs.buf[old(bs.readPos) / 8] / 32
  {
    TopThreeAt(bs.buf, bs.readPos / 8);
    var c := bs.ReadBits(3);
    code := c.value;
  }

  lemma FourthBit(v: byte)
    ensures BitsOf(v, 8)[3] == (v / 16 % 2 == 1)
  {
    BitTable(v);
  }

  lemma FourthBitAt(b: Bytes, p: nat)
    requires p < |b|
    ensures 8 * p + 3 < |BytesBits(b)| && BytesBits(b)[8 * p + 3] == (b[p] / 16 % 2 == 1)
  {
    BytesBitAt(b, p, 3);
    FourthBit(b[p]);
  }

  /** The bit after them says whether split fields follow; the rest of the byte is skipped. */
  method ReadSplitFlag(bs: BitStream, ghost p: nat) returns (hasSplit: bool)
    requires bs.Valid() && bs.writePos == 8 * |bs.buf| && p < |bs.buf| && bs.readPos == 8 * p + 3
    modifies bs`readPos
    ensures bs.readPos == 8 * p + 8 && hasSplit == (bs.buf[p] / 16 % 2 == 1)
  {
    FourthBitAt(bs.buf, p);
    GetBit(bs.Written(), bs.readPos);
    var h := bs.ReadBit();
    hasSplit := h.value;
    bs.AlignReadToByte();
  }

  method ReadHead(bs: BitStream) returns (code: nat, hasSplit: bool)
    requires Whole(bs) && bs.readPos < 8 * |bs.buf|
    modifies bs`readPos
    ensures Whole(bs) && bs.readPos == old(bs.readPos) + 8
    ensures var v := bs.buf[old(bs.readPos) / 8]; code == v / 32 && hasSplit == (v / 16 % 2 == 1)
  {
    ghost var p := bs.readPos / 8;
    code := ReadCode(bs);
    hasSplit := ReadSplitFlag(bs, p);
  }

  method ReadOptionalUInt24(bs: BitStream, c: bool) returns (r: Option<nat>)
    requires Whole(bs)
    modifies bs`readPos
    ensures Whole(bs)
    ensures match OptionalLittleAt(c, bs.buf, old(bs.readPos) / 8)
      case None => r == None
      case Some((v, q)) => r == Some(v) && bs.readPos == 8 * q
  {
    if !c {
      return Some(0);
    }
    r := TakeUInt24(bs);
  }

  method ReadOrdering(bs: BitStream, c: bool) returns (r: Option<(nat, nat)>)
    requires Whole(bs)
    modifies bs`readPos
    ensures Whole(bs)
    ensures match OrderingAt(c, bs.buf, old(bs.readPos) / 8)
      case None => r == None
      case Some((oi, ch, q)) => r == Some((oi, ch)) && bs.readPos == 8 * q
  {
    if !c {
      return Some((0, 0));
    }
    var oi := TakeUInt24(bs);
    if oi.None? {
      return None;
    }
    var ch := TakeUInt(bs, 1);
    if ch.None? {
      return None;
    }
    r := Some((oi.value, ch.value));
  }

  method ReadSplit(bs: BitStream, c: bool) returns (r: Option<(nat, nat, nat)>)
    requires Whole(bs)
    modifies bs`readPos
    ensures Whole(bs)
    ensures match SplitAt(c, bs.buf, old(bs.readPos) / 8)
      case None => r == None
      case Some((count, id, index, q)) => r == Some((count, id, index)) && bs.readPos == 8 * q
  {
    if !c {
      return Some((0, 0, 0));
    }
    var count := TakeUInt(bs, 4);
    if count.None? {
      return None;
    }
    var id := TakeUInt(bs, 2);
    if id.None? {
      return None;
    }
    var index := TakeUInt(bs, 4);
    if index.None? {
      return None;
    }
    r := Some((count.value, id.value, index.value));
  }

  /** Length, reliable number and sequencing index. */
  method ReadNumbers(bs: BitStream, rel: Reliability) returns (r: Option<(nat, nat, nat)>)
    requires Whole(bs)
    modifies bs`readPos
    ensures Whole(bs)
    ensures match NumbersAt(rel, bs.buf, old(bs.readPos) / 8)
      case None => r == None
      case Some((len, num, sq, q)) => r == Some((len, num, sq)) && bs.readPos == 8 * q
  {
    var len := TakeUInt(bs, 2);
    if len.None? {
      return None;
    }
    var num := ReadOptionalUInt24(bs, rel.IsReliable());
    if num.None? {
      return None;
    }
    var sq := ReadOptionalUInt24(bs, rel.IsSequenced());
    if sq.None? {
      return None;
    }
    r := Some((len.value, num.value, sq.value));
  }

  method ReadHeader(bs: BitStream) returns (r: Option<(MessageFrame, bool)>)
    requires Whole(bs) && bs.readPos < 8 * |bs.buf|
    modifies bs`readPos
    ensures Whole(bs)
    ensures match HeaderAt(bs.buf, old(bs.readPos) / 8)
      case None => r == None
      case Some((h, s, q)) => r == Some((h, s)) && bs.readPos == 8 * q
  {
    ghost var p := bs.readPos / 8;
    var code, hasSplit := ReadHead(bs);
    var rel := Reliability.FromCode(code);
    HeaderByParts(bs.buf, p, rel, hasSplit);
    assert bs.readPos / 8 == p + 1;
    var h := ReadFields(bs, rel, hasSplit);
    if h.None? {
      return None;
    }
    r := Some((h.value, hasSplit));
  }

  /** All fields behind the first byte. */
  method ReadFields(bs: BitStream, rel: Reliability, hasSplit: bool) returns (r: Option<MessageFrame>)
    requires Whole(bs)
    modifies bs`readPos
    ensures Whole(bs)
    ensures match FieldsAt(rel, hasSplit, bs.buf, old(bs.readPos) / 8)
      case None => r == None
      case Some((h, end)) => r == Some(h) && bs.readPos == 8 * end
  {
    var numbers := ReadNumbers(bs, rel);
    if numbers.None? {
      return None;
    }
    var tail := ReadTail(bs, rel, hasSplit);
    if tail.None? {
      return None;
    }
    var (oi, ch, count, id, index) := tail.value;
    r := Some(MessageFrame(rel, [], numbers.value.0, numbers.value.1, numbers.value.2, oi, ch, count, id, index));
  }

  ghost function FieldsAt(rel: Reliability, hasSplit: bool, b: Bytes, p: nat): Option<(MessageFrame, nat)> {
    match NumbersAt(rel, b, p)
    case None => None
    case Some((len, num, sq, q)) =>
      match TailAt(rel, hasSplit, b, q)
      case None => None
      case Some((oi, ch, count, id, index, end)) =>
        Some((MessageFrame(rel, [], len, num, sq, oi, ch, count, id, index), end))
  }

  /** Ordering and split fields, and where the payload begins. */
  ghost function TailAt(rel: Reliability, hasSplit: bool, b: Bytes, p: nat): Option<(nat, nat, nat, nat, nat, nat)> {
    match OrderingAt(rel.IsOrdered(), b, p)
    case None => None
    case Some((oi, ch, q)) =>
      match SplitAt(hasSplit, b, q)
      case None => None
      case Some((count, id, index, end)) => Some((oi, ch, count, id, index, end))
  }

  method ReadTail(bs: BitStream, rel: Reliability, hasSplit: bool) returns (r: Option<(nat, nat, nat, nat, nat)>)
    requires Whole(bs)
    modifies bs`readPos
    ensures Whole(bs)
    ensures match TailAt(rel, hasSplit, bs.buf, old(bs.readPos) / 8)
      case None => r == None
      case Some((oi, ch, count, id, index, end)) => r == Some((oi, ch, count, id, index)) && bs.readPos == 8 * end
  {
    var ord := ReadOrdering(bs, rel.IsOrdered());
    if ord.None? {
      return None;
    }
    var spl := ReadSplit(bs, hasSplit);
    if spl.None? {
      return None;
    }
    r := Some((ord.value.0, ord.value.1, spl.value.0, spl.value.1, spl.value.2));
  }

  /** A header is its first byte and its fields. */
  lemma HeaderByParts(b: Bytes, p: nat, rel: Reliability, hasSplit: bool)
    requires p < |b| && rel == Reliability.FromCode(b[p] / 32) && hasSplit == (b[p] / 16 % 2 == 1)
    ensures match FieldsAt(rel, hasSplit, b, p + 1)
      case None => HeaderAt(b, p) == None
      case Some((h, end)) => HeaderAt(b, p) == Some((h, hasSplit, end))
  {
  }

  method DecodeMessageFrame(bs: BitStream) returns (r: FrameResult)
    requires Whole(bs)
    modifies bs`readPos
    ensures r == FrameAt(bs.buf, old(bs.readPos) / 8)
    ensures r.Frame? ==> bs.readPos == 8 * r.next
  {
    if bs.UnreadBits() < 32 {
      return Stop;
    }
    var header := ReadHeader(bs);
    if header.None? {
      return Malformed;
    }
    var (h, hasSplit) := header.value;
    if h.bitLength == 0 || (h.reliability.IsOrdered() && h.orderingChannel >= 32)
       || (hasSplit && h.splitIndex >= h.splitCount) {
      return Stop;
    }
    if h.bitLength < 0 {
      return Malformed;
    }
    var data := TakeData(bs, (h.bitLength + 7) / 8);
    if data.None? {
      return Malformed;
    }
    r := Frame(h.(data := data.value), bs.readPos / 8);
  }

  method DecodeRangeList(bs: BitStream) returns (r: Option<seq<Range>>)
    requires Whole(bs)
    modifies bs`readPos
    ensures r == RangeListAt(bs.buf, old(bs.readPos) / 8)
  {
    bs.AlignReadToByte();
    var count := TakeUInt(bs, 2);
    if count.None? || count.value > DATAGRAM_MESSAGE_ID_ARRAY_LENGTH {
      return None;
    }
    r := ReadRanges(bs, count.value, bs.readPos / 8);
  }

  method ReadRanges(bs: BitStream, count: nat, ghost start: nat) returns (r: Option<seq<Range>>)
    requires Whole(bs) && bs.readPos == 8 * start
    modifies bs`readPos
    ensures r == RangesAt(bs.buf, start, count)
  {
    var ranges: seq<Range> := [];
    ghost var p, expected := start, RangesAt(bs.buf, start, count);
    PrependNone(expected);
    for i := 0 to count
      invariant Whole(bs) && bs.readPos == 8 * p && Listing(bs.buf, p, count - i, ranges, expected)
    {
      var range;
      range, p := NextRange(bs, p, count - i, ranges, expected);
      if range.None? {
        return None;
      }
      ranges := ranges + [range.value];
    }
    RangesEnd(bs.buf, p, ranges);
    r := Some(ranges);
  }

  /** With front already read and count ranges to go from byte p, the list is expected. */
  ghost predicate Listing(b: Bytes, p: nat, count: nat, front: seq<Range>, expected: Option<seq<Range>>) {
    Prepend(front, RangesAt(b, p, count)) == expected
  }

  method NextRange(bs: BitStream, ghost p: nat, ghost count: nat, ghost front: seq<Range>, ghost expected: Option<seq<Range>>)
    returns (r: Option<Range>, ghost q: nat)
    requires Whole(bs) && bs.readPos == 8 * p && count > 0 && Listing(bs.buf, p, count, front, expected)
    modifies bs`readPos
    ensures Whole(bs) && bs.readPos == 8 * q
    ensures if r.None? then expected == None else Listing(bs.buf, q, count - 1, front + [r.value], expected)
  {
    assert bs.readPos / 8 == p;
    r := ReadRange(bs);
    q := bs.readPos / 8;
    if r.Some? {
      RangesStep(bs.buf, p, count, front, r.value, q);
    }
  }

  /** Ranges read so far in front of the outcome of reading the rest. */
  ghost function Prepend<T>(front: seq<T>, rest: Option<seq<T>>): Option<seq<T>> {
    if rest.None? then None else Some(front + rest.value)
  }

  lemma PrependNone<T>(rest: Option<seq<T>>)
    ensures Prepend([], rest) == rest
  {
    if rest.Some? {
      assert [] + rest.value == rest.value;
    }
  }

  lemma PrependStep<T>(front: seq<T>, x: T, rest: Option<seq<T>>)
    ensures Prepend(front, Prepend([x], rest)) == Prepend(front + [x], rest)
  {
    if rest.Some? {
      assert front + ([x] + rest.value) == front + [x] + rest.value;
    }
  }

  lemma RangesStep(b: Bytes, p: nat, count: nat, front: seq<Range>, r: Range, q: nat)
    requires count > 0 && RangeAt(b, p) == Some((r, q))
    ensures Prepend(front, RangesAt(b, p, count)) == Prepend(front + [r], RangesAt(b, q, count - 1))
  {
    PrependStep(front, r, RangesAt(b, q, count - 1));
  }

  lemma RangesEnd(b: Bytes, p: nat, front: seq<Range>)
    ensures Prepend(front, RangesAt(b, p, 0)) == Some(front)
  {
    assert front + [] == front;
  }

  lemma FramesStep(b: Bytes, p: nat, front: seq<MessageFrame>, f: MessageFrame, q: nat)
    requires FrameAt(b, p) == Frame(f, q)
    ensures Prepend(front, FramesAt(b, p)) == Prepend(front + [f], FramesAt(b, q))
  {
    PrependStep(front, f, FramesAt(b, q));
    assert FramesAt(b, p) == Prepend([f], FramesAt(b, q));
  }

  lemma FramesMalformed(b: Bytes, p: nat)
    requires FrameAt(b, p) == Malformed
    ensures FramesAt(b, p) == None
  {
  }

  lemma FramesStop(b: Bytes, p: nat, front: seq<MessageFrame>)
    requires FrameAt(b, p) == Stop
    ensures Prepend(front, FramesAt(b, p)) == Some(front)
  {
    assert front + [] == front;
  }

  lemma FramesEnd(b: Bytes, p: nat, frames: seq<MessageFrame>)
    requires |b| < p + 4
    ensures Prepend(frames, FramesAt(b, p)) == Some(frames)
  {
    assert frames + [] == frames;
  }

  method ReadRange(bs: BitStream) returns (r: Option<Range>)
    requires Whole(bs)
    modifies bs`readPos
    ensures Whole(bs)
    ensures match RangeAt(bs.buf, old(bs.readPos) / 8)
      case None => r == None
      case Some((v, q)) => r == Some(v) && bs.readPos == 8 * q
  {
    var single := TakeUInt(bs, 1);
    if single.None? {
      return None;
    }
    var lo := TakeUInt24(bs);
    if lo.None? {
      return None;
    }
    if single.value != 0 {
      return Some(Range(lo.value, lo.value));
    }
    var hi := TakeUInt24(bs);
    if hi.None? {
      return None;
    }
    r := Some(Range(lo.value, hi.value));
  }

  /** With front already read and the cursor at byte p, the whole scan yields expected. */
  ghost predicate Scanning(b: Bytes, p: nat, front: seq<MessageFrame>, expected: Option<seq<MessageFrame>>) {
    Prepend(front, FramesAt(b, p)) == expected
  }

  /** What one frame does to the scan. */
  ghost predicate Contributes(b: Bytes, front: seq<MessageFrame>, r: FrameResult, expected: Option<seq<MessageFrame>>) {
    match r
    case Stop => expected == Some(front)
    case Malformed => expected == None
    case Frame(f, q) => Scanning(b, q, front + [f], expected)
  }

  lemma FrameContributes(b: Bytes, p: nat, front: seq<MessageFrame>, expected: Option<seq<MessageFrame>>)
    requires Scanning(b, p, front, expected)
    ensures Contributes(b, front, FrameAt(b, p), expected)
  {
    match FrameAt(b, p) {
      case Stop => FramesStop(b, p, front);
      case Malformed => FramesMalformed(b, p);
      case Frame(f, q) => FramesStep(b, p, front, f, q);
    }
  }

  method NextFrame(bs: BitStream, ghost p: nat, ghost front: seq<MessageFrame>, ghost expected: Option<seq<MessageFrame>>)
    returns (r: FrameResult)
    requires Whole(bs) && bs.readPos == 8 * p && Scanning(bs.buf, p, front, expected)
    modifies bs`readPos
    ensures r.Frame? ==> Whole(bs) && bs.readPos == 8 * r.next && r.next > p
    ensures Contributes(bs.buf, front, r, expected)
  {
    FrameContributes(bs.buf, p, front, expected);
    r := DecodeFrameAt(bs, p);
  }

  method DecodeFrameAt(bs: BitStream, ghost p: nat) returns (r: FrameResult)
    requires Whole(bs) && bs.readPos == 8 * p
    modifies bs`readPos
    ensures r == FrameAt(bs.buf, p) && (r.Frame? ==> Whole(bs) && bs.readPos == 8 * r.next)
  {
    assert bs.readPos / 8 == p;
    r := DecodeMessageFrame(bs);
  }

  method DecodeFrames(bs: BitStream, ghost start: nat) returns (r: Option<seq<MessageFrame>>)
    requires Whole(bs) && bs.readPos == 8 * start
    modifies bs`readPos
    ensures r == FramesAt(bs.buf, start)
  {
    var frames: seq<MessageFrame> := [];
    ghost var p, expected := start, FramesAt(bs.buf, start);
    PrependNone(expected);
    while bs.UnreadBits() >= 32
      invariant Whole(bs) && bs.readPos == 8 * p && Scanning(bs.buf, p, frames, expected)
      decreases |bs.buf| - p
    {
      var frame := NextFrame(bs, p, frames, expected);
      if frame.Stop? {
        return Some(frames);
      }
      if frame.Malformed? {
        return None;
      }
      frames := frames + [frame.frame];
      p := frame.next;
    }
    FramesEnd(bs.buf, p, frames);
    r := Some(frames);
  }

  method DecodeDatagram(data: Bytes) returns (r: Option<Datagram>)
    ensures r == Parse(data)
  {
    var bs := new BitStream.FromData(data);
    if data != [] {
      HeadBits(data);
    }
    var valid := bs.ReadBit();
    if valid.None? || !valid.value {
      return None;
    }
    var isAck := bs.ReadBit();
    if isAck.value {
      r := DecodeAckBody(bs);
      return;
    }
    var isNak := bs.ReadBit();
    if isNak.value {
      r := DecodeNakBody(bs);
      return;
    }
    r := DecodeDataBody(bs);
  }

  /** The bits of the first byte. */
  lemma HeadBits(data: Bytes)
    requires data != []
    ensures var bits := BytesBits(data);
      |bits| >= 8 && bits[0] == (data[0] / 128 % 2 == 1) && bits[1] == (data[0] / 64 % 2 == 1)
      && bits[2] == (data[0] / 32 % 2 == 1) && bits[3] == (data[0] / 16 % 2 == 1)
      && bits[4] == (data[0] / 8 % 2 == 1) && bits[5] == (data[0] / 4 % 2 == 1)
  {
    BitTable(data[0]);
    BytesBitAt(data, 0, 0);
    BytesBitAt(data, 0, 1);
    BytesBitAt(data, 0, 2);
    BytesBitAt(data, 0, 3);
    BytesBitAt(data, 0, 4);
    BytesBitAt(data, 0, 5);
  }

  method DecodeNakBody(bs: BitStream) returns (r: Option<Datagram>)
    requires bs.Valid() && bs.writePos == 8 * |bs.buf| && bs.readPos == 3 && bs.buf != []
    requires bs.buf[0] / 128 % 2 == 1 && bs.buf[0] / 64 % 2 == 0 && bs.buf[0] / 32 % 2 == 1
    modifies bs`readPos
    ensures r == Parse(bs.buf)
  {
    bs.AlignReadToByte();
    var ranges := DecodeRangeList(bs);
    r := if ranges.None? then None else Some(Nak(ranges.value));
  }

  method DecodeAckBody(bs: BitStream) returns (r: Option<Datagram>)
    requires bs.Valid() && bs.writePos == 8 * |bs.buf| && bs.readPos == 2 && bs.buf != []
    requires bs.Written()[2] == (bs.buf[0] / 32 % 2 == 1)
    requires bs.buf[0] / 128 % 2 == 1 && bs.buf[0] / 64 % 2 == 1
    modifies bs`readPos
    ensures r == Parse(bs.buf)
  {
    GetBit(bs.Written(), 2);
    var has := bs.ReadBit();
    bs.AlignReadToByte();
    if has.value {
      var skipped := TakeData(bs, 4);
      if skipped.None? {
        return None;
      }
    }
    var ranges := DecodeRangeList(bs);
    r := if ranges.None? then None else Some(Ack(has.value, ranges.value));
  }

  method ReadDataFlags(bs: BitStream) returns (pair: bool, cont: bool, needs: bool)
    requires bs.Valid() && bs.writePos == 8 * |bs.buf| && bs.readPos == 3 && bs.buf != []
    modifies bs`readPos
    ensures Whole(bs) && bs.readPos == 8
    ensures pair == bs.Written()[3] && cont == bs.Written()[4] && needs == bs.Written()[5]
  {
    GetBit(bs.Written(), 3);
    var b3 := bs.ReadBit();
    GetBit(bs.Written(), 4);
    var b4 := bs.ReadBit();
    GetBit(bs.Written(), 5);
    var b5 := bs.ReadBit();
    bs.AlignReadToByte();
    pair, cont, needs := b3.value, b4.value, b5.value;
  }

  method DecodeDataBody(bs: BitStream) returns (r: Option<Datagram>)
    requires bs.Valid() && bs.writePos == 8 * |bs.buf| && bs.readPos == 3 && bs.buf != []
    requires bs.Written()[3] == (bs.buf[0] / 16 % 2 == 1)
    requires bs.Written()[4] == (bs.buf[0] / 8 % 2 == 1)
    requires bs.Written()[5] == (bs.buf[0] / 4 % 2 == 1)
    requires bs.buf[0] / 128 % 2 == 1 && bs.buf[0] / 64 % 2 == 0 && bs.buf[0] / 32 % 2 == 0
    modifies bs`readPos
    ensures r == Parse(bs.buf)
  {
    var pair, cont, needs := ReadDataFlags(bs);
    var number := TakeUInt24(bs);
    if number.None? {
      return None;
    }
    var frames := DecodeFrames(bs, 4);
    r := if frames.None? then None
         else Some(Datagram.Data(number.value, pair, cont, needs, frames.value));
  }
}
