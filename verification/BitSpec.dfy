/** What a bit stream holds, and what writing and reading mean on bit strings. */
module BitSpec {
  import opened Types
  import opened Bits

  // ---------- bytes as bits ----------

  /** Bit i of a buffer, counting from the top bit of the first byte. */
  predicate BitAt(buf: Bytes, i: nat)
    requires i < 8 * |buf|
  {
    BitOf(buf[i / 8], 7 - i % 8)
  }

  /** The first n bits of a buffer. */
  function BitsIn(buf: Bytes, n: nat): (s: seq<bool>)
    requires n <= 8 * |buf|
    ensures |s| == n
  {
    seq(n, i requires 0 <= i < n => BitAt(buf, i))
  }

  function BytesBits(bs: Bytes): (s: seq<bool>)
    ensures |s| == 8 * |bs|
  {
    BitsIn(bs, 8 * |bs|)
  }

  function BytesOf(s: seq<bool>): (bs: seq<nat>)
    ensures |bs| == |s| / 8
  {
    seq(|s| / 8, i requires 0 <= i < |s| / 8 => Number(s[8 * i..8 * i + 8]))
  }

  lemma ByteBitsChunk(bs: Bytes, i: nat)
    requires i < |bs|
    ensures BytesBits(bs)[8 * i..8 * i + 8] == BitsOf(bs[i], 8)
  {
    forall j: nat | j < 8
      ensures BytesBits(bs)[8 * i + j] == BitsOf(bs[i], 8)[j]
    {
      BitsOfAt(bs[i], 8, j);
      assert (8 * i + j) / 8 == i && (8 * i + j) % 8 == j;
    }
  }

  /** The bits of a byte string determine it. */
  lemma BytesOfBits(bs: Bytes)
    ensures BytesOf(BytesBits(bs)) == bs
  {
    forall i: nat | i < |bs|
      ensures BytesOf(BytesBits(bs))[i] == bs[i]
    {
      ByteBitsChunk(bs, i);
      ByteSum(bs[i]);
    }
  }

  lemma BytesBitsAppend(a: Bytes, b: Bytes)
    ensures BytesBits(a + b) == BytesBits(a) + BytesBits(b)
  {
    forall i: nat | i < 8 * |a + b|
      ensures BytesBits(a + b)[i] == (BytesBits(a) + BytesBits(b))[i]
    {
      if i >= 8 * |a| {
        assert i / 8 - |a| == (i - 8 * |a|) / 8 && i % 8 == (i - 8 * |a|) % 8;
      }
    }
  }

  lemma BytesBitsSlice(buf: Bytes, lo: nat, hi: nat, n: nat)
    requires lo <= hi <= |buf| && 8 * hi <= n <= 8 * |buf|
    ensures BitsIn(buf, n)[8 * lo..8 * hi] == BytesBits(buf[lo..hi])
  {
    forall i: nat | i < 8 * (hi - lo)
      ensures BitsIn(buf, n)[8 * lo + i] == BytesBits(buf[lo..hi])[i]
    {
      assert (8 * lo + i) / 8 == lo + i / 8 && (8 * lo + i) % 8 == i % 8;
    }
  }

  // ---------- fixed-width integers ----------

  /** The lowest n bytes of v, most significant first: `struct.pack(">..")`. */
  function BigEndian(v: int, n: nat): (bs: Bytes)
    ensures |bs| == n
    decreases n
  {
    if n == 0 then [] else BigEndian(v / 256, n - 1) + [v % 256]
  }

  function FromBigEndian(bs: seq<nat>): nat {
    if bs == [] then 0 else 256 * FromBigEndian(bs[..|bs| - 1]) + bs[|bs| - 1]
  }

  function LittleEndian(v: int, n: nat): (bs: Bytes)
    ensures |bs| == n
    decreases n
  {
    if n == 0 then [] else [v % 256] + LittleEndian(v / 256, n - 1)
  }

  function FromLittleEndian(bs: seq<nat>): nat {
    if bs == [] then 0 else bs[0] + 256 * FromLittleEndian(bs[1..])
  }

  function Pow256(n: nat): (p: nat)
    ensures p >= 1
  {
    if n == 0 then 1 else 256 * Pow256(n - 1)
  }

  lemma Pow256Table()
    ensures Pow256(1) == 0x100 && Pow256(2) == 0x10000 && Pow256(3) == 0x1000000 && Pow256(4) == 0x100000000
    ensures Pow256(8) == 0x10000000000000000
  {
    assert Pow256(1) == 256 * Pow256(0);
    assert Pow256(2) == 256 * Pow256(1);
    assert Pow256(3) == 256 * Pow256(2);
    assert Pow256(4) == 256 * Pow256(3);
    assert Pow256(5) == 256 * Pow256(4);
    assert Pow256(6) == 256 * Pow256(5);
    assert Pow256(7) == 256 * Pow256(6);
  }

  /** v modulo 256 p from v / 256 modulo p. */
  lemma LowByteSplit(v: int, p: nat)
    requires p >= 1
    ensures v % (256 * p) == 256 * ((v / 256) % p) + v % 256
  {
    var q := v / 256;
    assert q == p * (q / p) + q % p;
    assert 256 * (p * (q / p)) == (256 * p) * (q / p);
    ModUnique(v, 256 * p, q / p, 256 * (q % p) + v % 256);
  }

  lemma {:induction false} BigEndianValue(v: int, n: nat)
    ensures FromBigEndian(BigEndian(v, n)) == v % Pow256(n)
    decreases n
  {
    if n > 0 {
      BigEndianValue(v / 256, n - 1);
      LowByteSplit(v, Pow256(n - 1));
      assert BigEndian(v, n)[..n - 1] == BigEndian(v / 256, n - 1);
    }
  }

  lemma {:induction false} LittleEndianValue(v: int, n: nat)
    ensures FromLittleEndian(LittleEndian(v, n)) == v % Pow256(n)
    decreases n
  {
    if n > 0 {
      LittleEndianValue(v / 256, n - 1);
      LowByteSplit(v, Pow256(n - 1));
      assert LittleEndian(v, n)[1..] == LittleEndian(v / 256, n - 1);
    }
  }

  // ---------- writing and reading ----------

  /** One write, with what it writes. */
  datatype Item =
    | Bit(b: bool)
    | Num(v: int, n: nat)
    | UInt(v: int, width: nat)
    | UIntLittle(v: int, width: nat)
    | Int(v: int, width: nat)
    | Raw(data: Bytes)
    | RawUnaligned(data: Bytes)
    | Align

  /** One read. */
  datatype Kind =
    | BitKind
    | NumKind(n: nat)
    | UIntKind(width: nat)
    | UIntLittleKind(width: nat)
    | IntKind(width: nat)
    | RawKind(len: nat)
    | RawUnalignedKind(len: nat)
    | AlignKind

  datatype Value = Flag(b: bool) | Integer(v: int) | Data(data: seq<nat>) | Nothing

  predicate InRange(it: Item) {
    it.Int? ==> 0 <= 2 * it.v + Pow256(it.width) && 2 * it.v < Pow256(it.width)
  }

  /** The read that matches a write. */
  function Matching(it: Item): Kind {
    match it
    case Bit(_) => BitKind
    case Num(_, n) => NumKind(n)
    case UInt(_, w) => UIntKind(w)
    case UIntLittle(_, w) => UIntLittleKind(w)
    case Int(_, w) => IntKind(w)
    case Raw(d) => RawKind(|d|)
    case RawUnaligned(d) => RawUnalignedKind(|d|)
    case Align => AlignKind
  }

  /** What the matching read must return: the value, cut to its width. */
  function ValueOf(it: Item): Value {
    match it
    case Bit(b) => Flag(b)
    case Num(v, n) => Integer(v % Pow2(n))
    case UInt(v, w) => Integer(v % Pow256(w))
    case UIntLittle(v, w) => Integer(v % Pow256(w))
    case Int(v, _) => Integer(v)
    case Raw(d) => Data(d)
    case RawUnaligned(d) => Data(d)
    case Align => Nothing
  }

  predicate IsAligned(k: Kind) {
    !k.BitKind? && !k.NumKind? && !k.RawUnalignedKind?
  }

  function Width(k: Kind): nat {
    match k
    case BitKind => 1
    case NumKind(n) => n
    case UIntKind(w) => 8 * w
    case UIntLittleKind(w) => 8 * w
    case IntKind(w) => 8 * w
    case RawKind(len) => 8 * len
    case RawUnalignedKind(len) => 8 * len
    case AlignKind => 0
  }

  /** The next multiple of eight. */
  function RoundUp(pos: nat): (r: nat)
    ensures pos <= r < pos + 8 && r % 8 == 0
  {
    (pos + 7) / 8 * 8
  }

  function Pad(bits: seq<bool>): (r: seq<bool>)
    ensures |r| == RoundUp(|bits|)
  {
    bits + seq(RoundUp(|bits|) - |bits|, _ => false)
  }

  function Body(it: Item): (s: seq<bool>)
    ensures |s| == Width(Matching(it))
  {
    match it
    case Bit(b) => [b]
    case Num(v, n) => BitsOf(v, n)
    case UInt(v, w) => BytesBits(BigEndian(v, w))
    case UIntLittle(v, w) => BytesBits(LittleEndian(v, w))
    case Int(v, w) => BytesBits(BigEndian(v, w))
    case Raw(d) => BytesBits(d)
    case RawUnaligned(d) => BytesBits(d)
    case Align => []
  }

  /** The stream after one write. */
  function Put(bits: seq<bool>, it: Item): seq<bool> {
    (if IsAligned(Matching(it)) then Pad(bits) else bits) + Body(it)
  }

  /** Two's complement: the signed reading of w bytes. */
  function Signed(v: nat, w: nat): int {
    if 2 * v < Pow256(w) then v else v - Pow256(w)
  }

  function Interpret(k: Kind, s: seq<bool>): Value
    requires |s| == Width(k)
  {
    match k
    case BitKind => Flag(s[0])
    case NumKind(_) => Integer(Number(s))
    case UIntKind(_) => Integer(FromBigEndian(BytesOf(s)))
    case UIntLittleKind(_) => Integer(FromLittleEndian(BytesOf(s)))
    case IntKind(w) => Integer(Signed(FromBigEndian(BytesOf(s)), w))
    case RawKind(_) => Data(BytesOf(s))
    case RawUnalignedKind(_) => Data(BytesOf(s))
    case AlignKind => Nothing
  }

  function ReadStart(pos: nat, k: Kind): nat {
    if IsAligned(k) then RoundUp(pos) else pos
  }

  /** One read at pos: the value and the new position, or None when too few bits remain. */
  function Get(bits: seq<bool>, pos: nat, k: Kind): Option<(Value, nat)> {
    var p := ReadStart(pos, k);
    if k.AlignKind? then Some((Nothing, p))
    else if p + Width(k) > |bits| then None
    else Some((Interpret(k, bits[p..p + Width(k)]), p + Width(k)))
  }

  function PutAll(bits: seq<bool>, items: seq<Item>): seq<bool>
    decreases |items|
  {
    if items == [] then bits else PutAll(Put(bits, items[0]), items[1..])
  }

  function GetAll(bits: seq<bool>, pos: nat, kinds: seq<Kind>): Option<seq<Value>>
    decreases |kinds|
  {
    if kinds == [] then Some([])
    else
      var first :- Get(bits, pos, kinds[0]);
      var rest :- GetAll(bits, first.1, kinds[1..]);
      Some([first.0] + rest)
  }

  lemma SignedOfMod(v: int, p: int)
    requires p >= 1 && -p <= 2 * v < p
    ensures v % p == if v >= 0 then v else v + p
  {
    if v >= 0 {
      ModUnique(v, p, 0, v);
    } else {
      ModUnique(v, p, -1, v + p);
    }
  }

  lemma InterpretUInt(v: int, w: nat)
    ensures Interpret(UIntKind(w), BytesBits(BigEndian(v, w))) == Integer(v % Pow256(w))
  {
    BigEndianBack(v, w);
  }

  lemma InterpretUIntLittle(v: int, w: nat)
    ensures Interpret(UIntLittleKind(w), BytesBits(LittleEndian(v, w))) == Integer(v % Pow256(w))
  {
    BytesOfBits(LittleEndian(v, w));
    LittleEndianValue(v, w);
  }

  lemma InterpretInt(v: int, w: nat)
    requires InRange(Int(v, w))
    ensures Interpret(IntKind(w), BytesBits(BigEndian(v, w))) == Integer(v)
  {
    BigEndianBack(v, w);
    SignedOfMod(v, Pow256(w));
  }

  lemma InterpretBody(it: Item)
    requires InRange(it)
    ensures Interpret(Matching(it), Body(it)) == ValueOf(it)
  {
    if it.UInt? {
      InterpretUInt(it.v, it.width);
    } else if it.UIntLittle? {
      InterpretUIntLittle(it.v, it.width);
    } else if it.Int? {
      InterpretInt(it.v, it.width);
    } else if it.Num? {
      NumberOfBits(it.v, it.n);
    } else if it.Raw? {
      BytesOfBits(it.data);
    } else if it.RawUnaligned? {
      BytesOfBits(it.data);
    }
  }

  lemma BigEndianBack(v: int, w: nat)
    ensures FromBigEndian(BytesOf(BytesBits(BigEndian(v, w)))) == v % Pow256(w)
  {
    BytesOfBits(BigEndian(v, w));
    BigEndianValue(v, w);
  }

  lemma {:induction false} PutAllExtends(bits: seq<bool>, items: seq<Item>)
    ensures bits <= PutAll(bits, items)
    decreases |items|
  {
    if items != [] {
      PutAllExtends(Put(bits, items[0]), items[1..]);
    }
  }

  function Matchings(items: seq<Item>): seq<Kind> {
    if items == [] then [] else [Matching(items[0])] + Matchings(items[1..])
  }

  function Values(items: seq<Item>): seq<Value> {
    if items == [] then [] else [ValueOf(items[0])] + Values(items[1..])
  }

  lemma BodyPlace(before: seq<bool>, it: Item)
    ensures var p := ReadStart(|before|, Matching(it));
      p <= |Put(before, it)| == p + Width(Matching(it)) && Put(before, it)[p..] == Body(it)
  {
  }

  lemma PrefixSlice(s: seq<bool>, all: seq<bool>, p: nat)
    requires s <= all && p <= |s|
    ensures all[p..|s|] == s[p..]
  {
    assert all[..|s|] == s;
  }

  /** One write is read back, whatever was appended later. */
  lemma ReadOne(before: seq<bool>, it: Item, all: seq<bool>)
    requires InRange(it) && Put(before, it) <= all
    ensures Get(all, |before|, Matching(it)) == Some((ValueOf(it), |Put(before, it)|))
  {
    BodyPlace(before, it);
    PrefixSlice(Put(before, it), all, ReadStart(|before|, Matching(it)));
    InterpretBody(it);
  }

  /** Any writes, at any alignment, after anything and before anything, are
      read back by the matching reads as the values written. */
  lemma {:induction false} ReadBack(before: seq<bool>, items: seq<Item>, after: seq<bool>)
    requires forall it <- items :: InRange(it)
    ensures GetAll(PutAll(before, items) + after, |before|, Matchings(items)) == Some(Values(items))
    decreases |items|
  {
    if items != [] {
      var it, next := items[0], Put(before, items[0]);
      PutAllExtends(next, items[1..]);
      var all := PutAll(before, items) + after;
      ReadOne(before, it, all);
      ReadBack(next, items[1..], after);
      assert Matchings(items)[1..] == Matchings(items[1..]);
    }
  }
}
