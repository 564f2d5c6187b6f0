/** The bit-level read/write buffer (_bitstream.py). */
module BitStreams {
  import opened Types
  import opened Bits
  import opened BitSpec

  function Zeros(n: nat): Bytes {
    seq(n, _ => 0)
  }

  /** Every bit from n on is 0. */
  ghost predicate ZeroTail(buf: Bytes, n: nat) {
    forall i: nat {:trigger BitAt(buf, i)} | n <= i < 8 * |buf| :: !BitAt(buf, i)
  }

  lemma ZeroBits(n: nat)
    ensures ZeroTail(Zeros(n), 0)
  {
    forall k: nat
      ensures !BitOf(0, k)
    {
      assert 0 / Pow2(k) == 0;
    }
  }

  lemma BitAtAppend(a: Bytes, b: Bytes, i: nat)
    requires i < 8 * |a + b|
    ensures BitAt(a + b, i) == if i < 8 * |a| then BitAt(a, i) else BitAt(b, i - 8 * |a|)
  {
    if i >= 8 * |a| {
      assert i / 8 - |a| == (i - 8 * |a|) / 8 && i % 8 == (i - 8 * |a|) % 8;
    }
  }

  /** Growing by zero bytes changes no bit and leaves the tail clear. */
  lemma GrowKeeps(buf: Bytes, n: nat, pos: nat)
    requires pos <= 8 * |buf| && ZeroTail(buf, pos)
    ensures ZeroTail(buf + Zeros(n), pos)
    ensures BitsIn(buf + Zeros(n), pos) == BitsIn(buf, pos)
  {
    ZeroBits(n);
    forall i: nat | i < 8 * |buf + Zeros(n)|
      ensures BitAt(buf + Zeros(n), i) == (i < 8 * |buf| && BitAt(buf, i))
    {
      BitAtAppend(buf, Zeros(n), i);
    }
  }

  /** Setting the bit at the cursor appends it. */
  lemma SetAtCursor(buf: Bytes, pos: nat, v: bool)
    requires pos < 8 * |buf| && ZeroTail(buf, pos)
    ensures var r := buf[pos / 8 := PutBit(buf[pos / 8], 7 - pos % 8, v)];
      ZeroTail(r, pos + 1) && BitsIn(r, pos + 1) == BitsIn(buf, pos) + [v]
  {
    var r := buf[pos / 8 := PutBit(buf[pos / 8], 7 - pos % 8, v)];
    forall i: nat | i < 8 * |buf|
      ensures BitAt(r, i) == if i == pos then v else BitAt(buf, i)
    {
      if i / 8 == pos / 8 && i % 8 == pos % 8 {
        assert i == pos;
      }
    }
  }

  /** A clear tail is exactly the padding up to the byte boundary. */
  lemma PadIsTail(buf: Bytes, pos: nat)
    requires pos <= 8 * |buf| < pos + 8 && ZeroTail(buf, pos)
    ensures BytesBits(buf) == Pad(BitsIn(buf, pos))
  {
  }

  /** Appending whole bytes after aligning. */
  lemma AppendAligned(buf: Bytes, pos: nat, data: Bytes)
    requires pos <= 8 * |buf| < pos + 8 && ZeroTail(buf, pos)
    ensures BitsIn(buf + data, 8 * |buf + data|) == Pad(BitsIn(buf, pos)) + BytesBits(data)
  {
    PadIsTail(buf, pos);
    BytesBitsAppend(buf, data);
  }

  /** The byte that starts at bit p. */
  function EightBits(s: seq<bool>, p: nat): byte
    requires p + 8 <= |s|
  {
    NumberBound(s[p..p + 8]);
    Pow2Table();
    Number(s[p..p + 8])
  }

  lemma BytesSnoc(bits: seq<bool>, data: Bytes, i: nat)
    requires i < |data|
    ensures Put(bits + BytesBits(data[..i]), Num(data[i], 8)) == bits + BytesBits(data[..i + 1])
  {
    ByteBitsChunk([data[i]], 0);
    assert BytesBits([data[i]]) == BitsOf(data[i], 8);
    BytesBitsAppend(data[..i], [data[i]]);
    assert data[..i + 1] == data[..i] + [data[i]];
  }

  lemma SkipAligned(buf: Bytes, pos: nat, pad: nat)
    requires pos == 8 * |buf| && ZeroTail(buf, pos)
    ensures var after := buf + Zeros(pad);
      pos + 8 * pad == 8 * |after| && ZeroTail(after, pos + 8 * pad)
      && BitsIn(after, pos + 8 * pad) == BitsIn(buf, pos) + BytesBits(Zeros(pad))
  {
    AppendAligned(buf, pos, Zeros(pad));
    assert Pad(BitsIn(buf, pos)) == BitsIn(buf, pos);
  }

  lemma GetBit(bits: seq<bool>, pos: nat)
    requires pos < |bits|
    ensures Get(bits, pos, BitKind) == Some((Flag(bits[pos]), pos + 1))
  {
  }

  lemma GetNumber(bits: seq<bool>, p: nat, n: nat)
    ensures Get(bits, p, NumKind(n))
            == if p + n > |bits| then None else Some((Integer(Number(bits[p..p + n])), p + n))
  {
  }

  lemma LittleBytes(value: int)
    ensures LittleEndian(value, 3) == [value % 256, (value / 256) % 256, (value / 65536) % 256]
  {
    assert value / 256 / 256 == value / 65536;
  }

  lemma PutLittle(bits: seq<bool>, value: int)
    ensures Put(bits, UIntLittle(value, 3)) == Put(bits, Align) + BytesBits(LittleEndian(value, 3))
  {
    assert Put(bits, Align) == Pad(bits) + [];
    assert Pad(bits) + [] == Pad(bits);
  }

  /** One more bit of a number read most significant first. */
  lemma NumberGrows(bits: seq<bool>, p: nat, i: nat)
    requires p + i < |bits|
    ensures Number(bits[p..p + i + 1]) == 2 * Number(bits[p..p + i]) + (if bits[p + i] then 1 else 0)
  {
    assert bits[p..p + i + 1] == bits[p..p + i] + [bits[p + i]];
    NumberSnoc(bits[p..p + i], bits[p + i]);
  }

  class BitStream {
    var buf: Bytes
    var writePos: nat
    var readPos: nat

    /** The buffer is exactly as long as the written bits need, and clear past them. */
    ghost predicate Valid()
      reads this
    {
      writePos <= 8 * |buf| < writePos + 8 && ZeroTail(buf, writePos)
    }

    /** The bits written so far. */
    ghost function Written(): seq<bool>
      requires Valid()
      reads this
    {
      BitsIn(buf, writePos)
    }

    constructor ()
      ensures Valid() && Written() == [] && readPos == 0 && buf == [] && writePos == 0
    {
      buf, writePos, readPos := [], 0, 0;
    }

    constructor FromData(data: Bytes)
      ensures Valid() && Written() == BytesBits(data) && readPos == 0
      ensures buf == data && writePos == 8 * |data|
    {
      buf, writePos, readPos := data, 8 * |data|, 0;
    }

    function UnreadBits(): int
      reads this
    {
      Max(0, writePos - readPos)
    }

    /** The written bits, padded with zeros to whole bytes. */
    method GetData() returns (data: Bytes)
      requires Valid()
      ensures data == buf && BytesBits(data) == Pad(Written())
    {
      data := buf[..(writePos + 7) / 8];
      PadIsTail(buf, writePos);
      assert data == buf;
    }

    method EnsureCapacity(extra: nat)
      requires Valid()
      modifies this`buf
      ensures writePos + extra <= 8 * |buf| < writePos + extra + 8
      ensures ZeroTail(buf, writePos) && BitsIn(buf, writePos) == old(Written())
      ensures buf == old(buf) + Zeros(|buf| - |old(buf)|)
    {
      var needed := (writePos + extra + 7) / 8;
      assert buf == buf + Zeros(0);
      if needed > |buf| {
        GrowKeeps(buf, needed - |buf|, writePos);
        buf := buf + Zeros(needed - |buf|);
      }
    }

    method WriteBit(value: bool)
      requires Valid()
      modifies this`buf, this`writePos
      ensures Valid() && Written() == Put(old(Written()), Bit(value))
    {
      EnsureCapacity(1);
      var byteIdx, bitIdx := writePos / 8, 7 - writePos % 8;
      SetAtCursor(buf, writePos, value);
      buf := buf[byteIdx := PutBit(buf[byteIdx], bitIdx, value)];
      writePos := writePos + 1;
    }

    method WriteBits(value: int, numBits: nat)
      requires Valid()
      modifies this`buf, this`writePos
      ensures Valid() && Written() == Put(old(Written()), Num(value, numBits))
    {
      var i := numBits;
      while i > 0
        invariant 0 <= i <= numBits && Valid()
        invariant Written() + BitsOf(value, i) == old(Written()) + BitsOf(value, numBits)
      {
        i := i - 1;
        ghost var before := Written();
        WriteBit(BitOf(value, i));
        assert Written() + BitsOf(value, i) == before + BitsOf(value, i + 1);
      }
      assert Written() == Written() + BitsOf(value, 0);
    }

    method WriteBytesUnaligned(data: Bytes)
      requires Valid()
      modifies this`buf, this`writePos
      ensures Valid() && Written() == Put(old(Written()), RawUnaligned(data))
    {
      if writePos % 8 == 0 {
        assert Pad(Written()) == Written();
        AppendBytes(data);
      } else {
        var i := 0;
        while i < |data|
          invariant 0 <= i <= |data| && Valid()
          invariant Written() == old(Written()) + BytesBits(data[..i])
        {
          BytesSnoc(old(Written()), data, i);
          WriteBits(data[i], 8);
          i := i + 1;
        }
        assert data[..i] == data;
      }
    }

    method AlignWriteToByte()
      requires Valid()
      modifies this`buf, this`writePos
      ensures Valid() && Written() == Put(old(Written()), Align)
      ensures buf == old(buf) && writePos == 8 * |buf|
    {
      PadIsTail(buf, writePos);
      var remainder := writePos % 8;
      if remainder != 0 {
        var pad := 8 - remainder;
        EnsureCapacity(pad);
        assert buf == old(buf);
        writePos := writePos + pad;
      }
    }

    /** The slice assignment shared by all byte-aligned writers. */
    method AppendBytes(data: Bytes)
      requires Valid() && writePos % 8 == 0
      modifies this`buf, this`writePos
      ensures Valid() && Written() == old(Written()) + BytesBits(data)
      ensures buf == old(buf) + data && writePos == 8 * |buf|
    {
      AppendAligned(buf, writePos, data);
      EnsureCapacity(8 * |data|);
      var idx := writePos / 8;
      buf := buf[..idx] + data + buf[idx + |data|..];
      assert buf == old(buf) + data;
      writePos := writePos + 8 * |data|;
    }

    /** The struct.pack(">..") body shared by the big-endian writers. */
    method WriteUInt(value: int, width: nat)
      requires Valid()
      modifies this`buf, this`writePos
      ensures Valid() && Written() == Put(old(Written()), UInt(value, width))
      ensures buf == old(buf) + BigEndian(value, width) && writePos == 8 * |buf|
    {
      AlignWriteToByte();
      assert Written() == Pad(old(Written()));
      AppendBytes(BigEndian(value, width));
    }

    method WriteUInt8(value: int)
      requires Valid()
      modifies this`buf, this`writePos
      ensures Valid() && Written() == Put(old(Written()), UInt(value, 1))
      ensures buf == old(buf) + [value % 256] && writePos == 8 * |buf|
    {
      AlignWriteToByte();
      assert Written() == Pad(old(Written()));
      AppendBytes([value % 256]);
      OneByte(value);
    }

    method WriteUInt16(value: int)
      requires Valid()
      modifies this`buf, this`writePos
      ensures Valid() && Written() == Put(old(Written()), UInt(value, 2))
      ensures buf == old(buf) + BigEndian(value, 2) && writePos == 8 * |buf|
    {
      WriteUInt(value, 2);
    }

    method WriteUInt24(value: int)
      requires Valid()
      modifies this`buf, this`writePos
      ensures Valid() && Written() == Put(old(Written()), UIntLittle(value, 3))
      ensures buf == old(buf) + LittleEndian(value, 3) && writePos == 8 * |buf|
    {
      LittleBytes(value);
      PutLittle(Written(), value);
      AlignWriteToByte();
      AppendBytes([value % 256, (value / 256) % 256, (value / 65536) % 256]);
    }

    method WriteUInt32(value: int)
      requires Valid()
      modifies this`buf, this`writePos
      ensures Valid() && Written() == Put(old(Written()), UInt(value, 4))
      ensures buf == old(buf) + BigEndian(value, 4) && writePos == 8 * |buf|
    {
      WriteUInt(value, 4);
    }

    method WriteUInt64(value: int)
      requires Valid()
      modifies this`buf, this`writePos
      ensures Valid() && Written() == Put(old(Written()), UInt(value, 8))
      ensures buf == old(buf) + BigEndian(value, 8) && writePos == 8 * |buf|
    {
      WriteUInt(value, 8);
    }

    method WriteInt64(value: int)
      requires Valid() && InRange(Int(value, 8))
      modifies this`buf, this`writePos
      ensures Valid() && Written() == Put(old(Written()), Int(value, 8))
      ensures buf == old(buf) + BigEndian(value, 8) && writePos == 8 * |buf|
    {
      WriteUInt(value, 8);
    }

    method WriteBytes(data: Bytes)
      requires Valid()
      modifies this`buf, this`writePos
      ensures Valid() && Written() == Put(old(Written()), Raw(data))
      ensures buf == old(buf) + data && writePos == 8 * |buf|
    {
      AlignWriteToByte();
      assert Written() == Pad(old(Written()));
      AppendBytes(data);
    }

    method SkipZeroBytes(pad: nat)
      requires Valid() && writePos % 8 == 0
      modifies this`buf, this`writePos
      ensures Valid() && buf == old(buf) + Zeros(pad) && writePos == old(writePos) + 8 * pad
      ensures Written() == old(Written()) + BytesBits(Zeros(pad))
    {
      SkipAligned(buf, writePos, pad);
      EnsureCapacity(8 * pad);
      assert buf == old(buf) + Zeros(pad);
      writePos := writePos + 8 * pad;
    }

    /** Extends with zero bytes to the target length; a longer stream stays as it is. */
    method PadWithZeroToByteLength(target: nat)
      requires Valid()
      modifies this`buf, this`writePos
      ensures Valid() && (old(|buf|) >= target ==> buf == old(buf) && writePos == old(writePos))
      ensures old(|buf|) < target ==>
        buf == old(buf) + Zeros(target - old(|buf|)) && writePos == 8 * target
        && Written() == Put(old(Written()), Raw(Zeros(target - old(|buf|))))
    {
      var current := (writePos + 7) / 8;
      if current < target {
        AlignWriteToByte();
        assert Written() == Pad(old(Written()));
        SkipZeroBytes(target - current);
      }
    }

    // ---------- reading ----------

    method ReadBit() returns (r: Option<bool>)
      requires Valid()
      modifies this`readPos
      ensures match Get(Written(), old(readPos), BitKind)
        case None => r == None && readPos == old(readPos)
        case Some((v, p)) => r == Some(v.b) && readPos == p
    {
      if readPos >= writePos {
        return None;
      }
      var byteIdx, bitIdx := readPos / 8, 7 - readPos % 8;
      assert Written()[readPos..readPos + 1][0] == BitAt(buf, readPos);
      readPos := readPos + 1;
      r := Some(BitOf(buf[byteIdx], bitIdx));
    }

    method ReadBits(numBits: nat) returns (r: Option<nat>)
      requires Valid()
      modifies this`readPos
      ensures match Get(Written(), old(readPos), NumKind(numBits))
        case None => r == None && readPos == old(readPos)
        case Some((v, p)) => r == Some(v.v) && readPos == p
    {
      ghost var bits, p := Written(), readPos;
      GetNumber(bits, p, numBits);
      if readPos + numBits > writePos {
        return None;
      }
      var result: nat := 0;
      for i := 0 to numBits
        invariant readPos == p + i && Written() == bits
        invariant result == Number(bits[p..p + i])
      {
        result := ReadDigit(result, p, i);
      }
      r := Some(result);
    }

    method ReadDigit(result: nat, ghost p: nat, ghost i: nat) returns (next: nat)
      requires Valid() && readPos == p + i < writePos && result == Number(Written()[p..p + i])
      modifies this`readPos
      ensures readPos == p + i + 1 && next == Number(Written()[p..p + i + 1])
    {
      NumberGrows(Written(), p, i);
      GetBit(Written(), p + i);
      var bit := ReadBit();
      next := 2 * result + (if bit.value then 1 else 0);
    }

    method AlignReadToByte()
      modifies this`readPos
      ensures readPos == RoundUp(old(readPos))
    {
      var remainder := readPos % 8;
      if remainder != 0 {
        readPos := readPos + 8 - remainder;
      }
    }

    /** The slice shared by all byte-aligned readers. */
    method TakeBytes(n: nat) returns (r: Option<Bytes>)
      requires Valid() && readPos % 8 == 0
      modifies this`readPos
      ensures r.Some? <==> old(readPos) + 8 * n <= writePos
      ensures r.Some? ==> readPos == old(readPos) + 8 * n && old(readPos) / 8 + n <= |buf|
      ensures r.Some? ==> r.value == buf[old(readPos) / 8..old(readPos) / 8 + n]
      ensures r.Some? ==> BytesOf(Written()[old(readPos)..old(readPos) + 8 * n]) == r.value
      ensures r.None? ==> readPos == old(readPos)
    {
      if readPos + 8 * n > writePos {
        return None;
      }
      var idx := readPos / 8;
      BytesBitsSlice(buf, idx, idx + n, writePos);
      BytesOfBits(buf[idx..idx + n]);
      readPos := readPos + 8 * n;
      r := Some(buf[idx..idx + n]);
    }

    method ReadUInt(width: nat) returns (r: Option<nat>)
      requires Valid()
      modifies this`readPos
      ensures match Get(Written(), old(readPos), UIntKind(width))
        case None => r == None && readPos == RoundUp(old(readPos))
        case Some((v, p)) => r == Some(v.v) && readPos == p
      ensures r.Some? ==> var k := RoundUp(old(readPos)) / 8;
        k + width <= |buf| && r.value == FromBigEndian(buf[k..k + width])
    {
      AlignReadToByte();
      var data := TakeBytes(width);
      if data.None? {
        return None;
      }
      r := Some(FromBigEndian(data.value));
    }

    method ReadUInt24() returns (r: Option<nat>)
      requires Valid()
      modifies this`readPos
      ensures match Get(Written(), old(readPos), UIntLittleKind(3))
        case None => r == None && readPos == RoundUp(old(readPos))
        case Some((v, p)) => r == Some(v.v) && readPos == p
      ensures r.Some? ==> var k := RoundUp(old(readPos)) / 8;
        k + 3 <= |buf| && r.value == FromLittleEndian(buf[k..k + 3])
    {
      AlignReadToByte();
      var data := TakeBytes(3);
      if data.None? {
        return None;
      }
      var b := data.value;
      LittleThree(b);
      var b0: int, b1: int, b2: int := b[0], b[1], b[2];
      r := Some(b0 + 256 * b1 + 65536 * b2);
    }

    method ReadInt64() returns (r: Option<int>)
      requires Valid()
      modifies this`readPos
      ensures match Get(Written(), old(readPos), IntKind(8))
        case None => r == None && readPos == RoundUp(old(readPos))
        case Some((v, p)) => r == Some(v.v) && readPos == p
    {
      AlignReadToByte();
      var data := TakeBytes(8);
      if data.None? {
        return None;
      }
      r := Some(Signed(FromBigEndian(data.value), 8));
    }

    method ReadBytes(n: nat) returns (r: Option<Bytes>)
      requires Valid()
      modifies this`readPos
      ensures match Get(Written(), old(readPos), RawKind(n))
        case None => r == None && readPos == RoundUp(old(readPos))
        case Some((v, p)) => r.Some? && r.value == v.data && readPos == p
      ensures r.Some? ==> var k := RoundUp(old(readPos)) / 8;
        k + n <= |buf| && r.value == buf[k..k + n]
    {
      AlignReadToByte();
      r := TakeBytes(n);
    }

    /** Byte by byte through read_bits, at any alignment. */
    method ReadChunks(n: nat) returns (result: Bytes)
      requires Valid() && readPos + 8 * n <= writePos
      modifies this`readPos
      ensures readPos == old(readPos) + 8 * n && |result| == n
      ensures forall j: nat | j < n ::
        result[j] == EightBits(Written(), old(readPos) + 8 * j)
    {
      result := [];
      for i := 0 to n
        invariant readPos == old(readPos) + 8 * i && |result| == i
        invariant forall j: nat | j < i ::
          result[j] == EightBits(Written(), old(readPos) + 8 * j)
      {
        var b := ReadBits(8);
        assert b.value == EightBits(Written(), old(readPos) + 8 * i);
        result := result + [b.value];
      }
    }

    method ReadBytesUnaligned(n: nat) returns (r: Option<Bytes>)
      requires Valid()
      modifies this`readPos
      ensures match Get(Written(), old(readPos), RawUnalignedKind(n))
        case None => r == None && readPos == old(readPos)
        case Some((v, p)) => r.Some? && r.value == v.data && readPos == p
    {
      if readPos + 8 * n > writePos {
        return None;
      }
      if readPos % 8 == 0 {
        r := TakeBytes(n);
      } else {
        ghost var start, bits := readPos, Written();
        var result := ReadChunks(n);
        forall i: nat | i < n
          ensures result[i] == BytesOf(bits[start..start + 8 * n])[i]
        {
          ByteOfChunk(bits, start, n, i);
        }
        assert result == BytesOf(bits[start..start + 8 * n]);
        r := Some(result);
      }
    }
  }

  lemma OneByte(v: int)
    ensures BigEndian(v, 1) == [v % 256]
  {
    assert BigEndian(v / 256, 0) == [];
  }

  lemma LittleThree(b: Bytes)
    requires |b| == 3
    ensures var b0: int, b1: int, b2: int := b[0], b[1], b[2]; FromLittleEndian(b) == b0 + 256 * b1 + 65536 * b2
  {
    var b1: int, b2: int := b[1], b[2];
    assert FromLittleEndian(b[1..][1..][1..]) == 0;
    assert FromLittleEndian(b[1..][1..]) == b2;
    assert FromLittleEndian(b[1..]) == b1 + 256 * b2;
  }

  lemma SubSlice<T>(s: seq<T>, lo: nat, hi: nat, a: nat, b: nat)
    requires lo <= hi <= |s| && a <= b <= hi - lo
    ensures s[lo..hi][a..b] == s[lo + a..lo + b]
  {
    forall i | 0 <= i < b - a
      ensures s[lo..hi][a..b][i] == s[lo + a..lo + b][i]
    {
    }
  }

  /** The i-th byte of a bit string is the number its eight bits denote. */
  lemma ByteOfChunk(s: seq<bool>, lo: nat, n: nat, i: nat)
    requires lo + 8 * n <= |s| && i < n
    ensures BytesOf(s[lo..lo + 8 * n])[i] == EightBits(s, lo + 8 * i)
  {
    SubSlice(s, lo, lo + 8 * n, 8 * i, 8 * i + 8);
  }
}
