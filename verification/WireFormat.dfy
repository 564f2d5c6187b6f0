/** The wire format byte by byte, and its round trips (_wire.py). */
module WireFormat {
  import opened Types
  import opened Bits
  import opened BitSpec

  datatype MessageFrame = MessageFrame(
    reliability: Reliability,
    data: Bytes,
    bitLength: int,
    reliableNumber: int,
    sequencingIndex: int,
    orderingIndex: int,
    orderingChannel: int,
    splitCount: int,
    splitId: int,
    splitIndex: int)

  /** Inclusive bounds of a run of datagram numbers. */
  datatype Range = Range(lo: int, hi: int)

  datatype Datagram =
    | Ack(hasBandwidth: bool, ranges: seq<Range>)
    | Nak(ranges: seq<Range>)
    | Data(number: int, packetPair: bool, continuousSend: bool, needsBandwidth: bool, frames: seq<MessageFrame>)

  // ---------- layout ----------

  function HeadByte(f: MessageFrame): byte {
    32 * f.reliability.Base().Code() + (if f.splitCount > 0 then 16 else 0)
  }

  function Optional(c: bool, bs: Bytes): Bytes {
    if c then bs else []
  }

  function OrderingField(f: MessageFrame): Bytes {
    LittleEndian(f.orderingIndex, 3) + [f.orderingChannel % 256]
  }

  function SplitField(f: MessageFrame): Bytes {
    BigEndian(f.splitCount, 4) + (BigEndian(f.splitId, 2) + BigEndian(f.splitIndex, 4))
  }

  function FrameBytes(f: MessageFrame): Bytes {
    [HeadByte(f)] + (BigEndian(f.bitLength, 2) + FromNumber(f))
  }

  function FromNumber(f: MessageFrame): Bytes {
    Optional(f.reliability.IsReliable(), LittleEndian(f.reliableNumber, 3)) + FromSequencing(f)
  }

  function FromSequencing(f: MessageFrame): Bytes {
    Optional(f.reliability.IsSequenced(), LittleEndian(f.sequencingIndex, 3)) + FromOrdering(f)
  }

  function FromOrdering(f: MessageFrame): Bytes {
    Optional(f.reliability.IsOrdered(), OrderingField(f)) + FromSplit(f)
  }

  function FromSplit(f: MessageFrame): Bytes {
    Optional(f.splitCount > 0, SplitField(f)) + f.data
  }

  function FramesBytes(fs: seq<MessageFrame>): Bytes {
    if fs == [] then [] else FrameBytes(fs[0]) + FramesBytes(fs[1..])
  }

  function RangeBytes(r: Range): Bytes {
    if r.lo == r.hi then [1] + LittleEndian(r.lo, 3)
    else [0] + (LittleEndian(r.lo, 3) + LittleEndian(r.hi, 3))
  }

  function RangesBytes(rs: seq<Range>): Bytes {
    if rs == [] then [] else RangeBytes(rs[0]) + RangesBytes(rs[1..])
  }

  function RangeListBytes(rs: seq<Range>): Bytes {
    BigEndian(|rs|, 2) + RangesBytes(rs)
  }

  function FlagBit(b: bool, weight: nat): nat {
    if b then weight else 0
  }

  function DatagramBytes(d: Datagram): Bytes {
    match d
    case Ack(b, rs) => [192 + FlagBit(b, 32)] + (Optional(b, [0, 0, 0, 0]) + RangeListBytes(rs))
    case Nak(rs) => [160] + RangeListBytes(rs)
    case Data(n, pair, cont, needs, fs) =>
      [128 + FlagBit(pair, 16) + FlagBit(cont, 8) + FlagBit(needs, 4)] + (LittleEndian(n, 3) + FramesBytes(fs))
  }

  // ---------- parsing ----------

  function BigAt(b: Bytes, p: nat, w: nat): Option<(nat, nat)> {
    if p + w <= |b| then Some((FromBigEndian(b[p..p + w]), p + w)) else None
  }

  function LittleAt(b: Bytes, p: nat): Option<(nat, nat)> {
    if p + 3 <= |b| then Some((FromLittleEndian(b[p..p + 3]), p + 3)) else None
  }

  function OptionalLittleAt(c: bool, b: Bytes, p: nat): Option<(nat, nat)> {
    if c then LittleAt(b, p) else Some((0, p))
  }

  function OrderingAt(c: bool, b: Bytes, p: nat): Option<(nat, nat, nat)> {
    if !c then Some((0, 0, p))
    else
      var oi :- LittleAt(b, p);
      var ch :- BigAt(b, oi.1, 1);
      Some((oi.0, ch.0, ch.1))
  }

  function SplitAt(c: bool, b: Bytes, p: nat): Option<(nat, nat, nat, nat)> {
    if !c then Some((0, 0, 0, p))
    else
      var count :- BigAt(b, p, 4);
      var id :- BigAt(b, count.1, 2);
      var index :- BigAt(b, id.1, 4);
      Some((count.0, id.0, index.0, index.1))
  }

  /** Length, reliable number and sequencing index. */
  function NumbersAt(rel: Reliability, b: Bytes, p: nat): Option<(nat, nat, nat, nat)> {
    var len :- BigAt(b, p, 2);
    var num :- OptionalLittleAt(rel.IsReliable(), b, len.1);
    var sq :- OptionalLittleAt(rel.IsSequenced(), b, num.1);
    Some((len.0, num.0, sq.0, sq.1))
  }

  /** All fields of a frame but its payload; None when the bytes run out. */
  function HeaderAt(b: Bytes, p: nat): Option<(MessageFrame, bool, nat)> {
    if p >= |b| then None
    else
      var rel := Reliability.FromCode(b[p] / 32);
      var hasSplit := b[p] / 16 % 2 == 1;
      var nums :- NumbersAt(rel, b, p + 1);
      var ord :- OrderingAt(rel.IsOrdered(), b, nums.3);
      var spl :- SplitAt(hasSplit, b, ord.2);
      Some((MessageFrame(rel, [], nums.0, nums.1, nums.2, ord.0, ord.1, spl.0, spl.1, spl.2), hasSplit, spl.3))
  }

  predicate Rejected(h: MessageFrame, hasSplit: bool) {
    h.bitLength == 0 || (h.reliability.IsOrdered() && h.orderingChannel >= 32)
    || (hasSplit && h.splitIndex >= h.splitCount)
  }

  datatype FrameResult = Frame(frame: MessageFrame, next: nat) | Stop | Malformed

  function FrameAt(b: Bytes, p: nat): (r: FrameResult)
    ensures r.Frame? ==> r.next > p
  {
    if |b| < p + 4 then Stop
    else
      match HeaderAt(b, p)
      case None => Malformed
      case Some((h, hasSplit, q)) =>
        if Rejected(h, hasSplit) then Stop
        else if q + (h.bitLength + 7) / 8 > |b| || h.bitLength < 0 then Malformed
        else
          HeaderMoves(b, p);
          Frame(h.(data := b[q..q + (h.bitLength + 7) / 8]), q + (h.bitLength + 7) / 8)
  }

  lemma HeaderMoves(b: Bytes, p: nat)
    ensures HeaderAt(b, p).Some? ==> HeaderAt(b, p).value.2 > p
  {
  }

  /** All frames from p on; None when a frame is cut short. */
  function FramesAt(b: Bytes, p: nat): Option<seq<MessageFrame>>
    decreases |b| - p
  {
    if |b| < p + 4 then Some([])
    else
      match FrameAt(b, p)
      case Stop => Some([])
      case Malformed => None
      case Frame(f, q) =>
        var rest :- FramesAt(b, q);
        Some([f] + rest)
  }

  function RangeAt(b: Bytes, p: nat): Option<(Range, nat)> {
    var single :- BigAt(b, p, 1);
    var lo :- LittleAt(b, single.1);
    if single.0 != 0 then Some((Range(lo.0, lo.0), lo.1))
    else
      var hi :- LittleAt(b, lo.1);
      Some((Range(lo.0, hi.0), hi.1))
  }

  function RangesAt(b: Bytes, p: nat, count: nat): Option<seq<Range>>
    decreases count
  {
    if count == 0 then Some([])
    else
      var first :- RangeAt(b, p);
      var rest :- RangesAt(b, first.1, count - 1);
      Some([first.0] + rest)
  }

  function RangeListAt(b: Bytes, p: nat): Option<seq<Range>> {
    var count :- BigAt(b, p, 2);
    if count.0 > DATAGRAM_MESSAGE_ID_ARRAY_LENGTH then None else RangesAt(b, count.1, count.0)
  }

  /** The datagram a payload stands for; None is the source's ValueError. */
  function Parse(b: Bytes): Option<Datagram> {
    if b == [] || b[0] / 128 % 2 == 0 then None
    else if b[0] / 64 % 2 == 1 then
      var has := b[0] / 32 % 2 == 1;
      if has && |b| < 5 then None
      else
        var rs :- RangeListAt(b, if has then 5 else 1);
        Some(Ack(has, rs))
    else if b[0] / 32 % 2 == 1 then
      var rs :- RangeListAt(b, 1);
      Some(Nak(rs))
    else
      var n :- LittleAt(b, 1);
      var fs :- FramesAt(b, n.1);
      Some(Datagram.Data(n.0, b[0] / 16 % 2 == 1, b[0] / 8 % 2 == 1, b[0] / 4 % 2 == 1, fs))
  }

  // ---------- round trips ----------

  /** The fields a frame keeps on the wire: ACK_RECEIPT modes become their base
      mode, and fields its mode does not carry read back as 0. */
  function Canonical(f: MessageFrame): MessageFrame {
    f.(reliability := f.reliability.Base(),
       reliableNumber := if f.reliability.IsReliable() then f.reliableNumber else 0,
       sequencingIndex := if f.reliability.IsSequenced() then f.sequencingIndex else 0,
       orderingIndex := if f.reliability.IsOrdered() then f.orderingIndex else 0,
       orderingChannel := if f.reliability.IsOrdered() then f.orderingChannel else 0,
       splitId := if f.splitCount > 0 then f.splitId else 0,
       splitIndex := if f.splitCount > 0 then f.splitIndex else 0)
  }

  predicate UInt(v: int, bound: int) {
    0 <= v < bound
  }

  /** Every field the frame's mode carries fits its width on the wire. */
  predicate FieldsFit(f: MessageFrame) {
    UInt(f.bitLength, 0x10000) && |f.data| == (f.bitLength + 7) / 8
    && (f.reliability.IsReliable() ==> UInt(f.reliableNumber, 0x1000000))
    && (f.reliability.IsSequenced() ==> UInt(f.sequencingIndex, 0x1000000))
    && (f.reliability.IsOrdered() ==> UInt(f.orderingIndex, 0x1000000) && UInt(f.orderingChannel, 32))
    && UInt(f.splitCount, 0x100000000)
    && (f.splitCount > 0 ==> UInt(f.splitId, 0x10000) && UInt(f.splitIndex, f.splitCount))
  }

  /** b holds s at position p. */
  ghost predicate Holds(b: Bytes, p: nat, s: Bytes) {
    p + |s| <= |b| && forall i :: 0 <= i < |s| ==> b[p + i] == s[i]
  }

  lemma HoldsSlice(b: Bytes, p: nat, s: Bytes)
    requires Holds(b, p, s)
    ensures b[p..p + |s|] == s
  {
  }

  lemma HoldsSplit(b: Bytes, p: nat, s: Bytes, t: Bytes)
    requires Holds(b, p, s + t)
    ensures Holds(b, p, s) && Holds(b, p + |s|, t)
  {
    forall i | 0 <= i < |t|
      ensures b[p + |s| + i] == t[i]
    {
      assert (s + t)[|s| + i] == t[i];
    }
    forall i | 0 <= i < |s|
      ensures b[p + i] == s[i]
    {
      assert (s + t)[i] == s[i];
    }
  }

  lemma BigBack(b: Bytes, p: nat, v: int, w: nat)
    requires Holds(b, p, BigEndian(v, w)) && 0 <= v < Pow256(w)
    ensures BigAt(b, p, w) == Some((v, p + w))
  {
    HoldsSlice(b, p, BigEndian(v, w));
    BigEndianValue(v, w);
    ModUnique(v, Pow256(w), 0, v);
  }

  lemma LittleBack(b: Bytes, p: nat, v: int)
    requires Holds(b, p, LittleEndian(v, 3)) && 0 <= v < 0x1000000
    ensures LittleAt(b, p) == Some((v, p + 3))
  {
    HoldsSlice(b, p, LittleEndian(v, 3));
    LittleEndianValue(v, 3);
    Pow256Table();
  }

  lemma ByteBack(b: Bytes, p: nat, v: int)
    requires Holds(b, p, [v % 256]) && 0 <= v < 256
    ensures BigAt(b, p, 1) == Some((v, p + 1))
  {
    assert BigEndian(v / 256, 0) == [];
    assert BigEndian(v, 1) == [v % 256];
    Pow256Table();
    BigBack(b, p, v, 1);
  }

  lemma OrderingBack(b: Bytes, p: nat, c: bool, f: MessageFrame)
    requires Holds(b, p, Optional(c, OrderingField(f)))
    requires c ==> UInt(f.orderingIndex, 0x1000000) && UInt(f.orderingChannel, 32)
    ensures OrderingAt(c, b, p) ==
      if c then Some((f.orderingIndex, f.orderingChannel, p + 4)) else Some((0, 0, p))
  {
    if c {
      HoldsSplit(b, p, LittleEndian(f.orderingIndex, 3), [f.orderingChannel % 256]);
      LittleBack(b, p, f.orderingIndex);
      ByteBack(b, p + 3, f.orderingChannel);
    }
  }

  lemma SplitBack(b: Bytes, p: nat, c: bool, f: MessageFrame)
    requires Holds(b, p, Optional(c, SplitField(f)))
    requires c ==> UInt(f.splitCount, 0x100000000) && UInt(f.splitId, 0x10000) && UInt(f.splitIndex, 0x100000000)
    ensures SplitAt(c, b, p) ==
      if c then Some((f.splitCount, f.splitId, f.splitIndex, p + 10)) else Some((0, 0, 0, p))
  {
    if c {
      Pow256Table();
      HoldsSplit(b, p, BigEndian(f.splitCount, 4), BigEndian(f.splitId, 2) + BigEndian(f.splitIndex, 4));
      HoldsSplit(b, p + 4, BigEndian(f.splitId, 2), BigEndian(f.splitIndex, 4));
      BigBack(b, p, f.splitCount, 4);
      BigBack(b, p + 4, f.splitId, 2);
      BigBack(b, p + 6, f.splitIndex, 4);
    }
  }

  lemma OptionalBack(b: Bytes, p: nat, c: bool, v: int)
    requires Holds(b, p, Optional(c, LittleEndian(v, 3))) && (c ==> UInt(v, 0x1000000))
    ensures OptionalLittleAt(c, b, p) == if c then Some((v, p + 3)) else Some((0, p))
  {
    if c {
      LittleBack(b, p, v);
    }
  }

  /** Exactly the size the sender estimates. */
  function FrameSize(f: MessageFrame): nat {
    3 + |f.data| + (if f.reliability.IsReliable() then 3 else 0) + (if f.reliability.IsSequenced() then 3 else 0)
    + (if f.reliability.IsOrdered() then 4 else 0) + (if f.splitCount > 0 then 10 else 0)
  }

  lemma FrameBytesSize(f: MessageFrame)
    ensures |FrameBytes(f)| == FrameSize(f)
  {
  }

  lemma BaseKeepsFields(r: Reliability)
    ensures r.Base().IsReliable() == r.IsReliable()
    ensures r.Base().IsSequenced() == r.IsSequenced()
    ensures r.Base().IsOrdered() == r.IsOrdered()
  {
  }

  lemma HeadBack(f: MessageFrame)
    ensures Reliability.FromCode(HeadByte(f) / 32) == f.reliability.Base()
    ensures (HeadByte(f) / 16 % 2 == 1) == (f.splitCount > 0)
  {
  }

  lemma HeaderFrom(b: Bytes, p: nat, f: MessageFrame, p2: nat, p3: nat, p4: nat, p5: nat)
    requires p < |b| && b[p] == HeadByte(f)
    requires BigAt(b, p + 1, 2) == Some((f.bitLength, p + 3)) && f.splitCount >= 0
    requires OptionalLittleAt(f.reliability.IsReliable(), b, p + 3) == Some((Canonical(f).reliableNumber, p2))
    requires OptionalLittleAt(f.reliability.IsSequenced(), b, p2) == Some((Canonical(f).sequencingIndex, p3))
    requires OrderingAt(f.reliability.IsOrdered(), b, p3)
             == Some((Canonical(f).orderingIndex, Canonical(f).orderingChannel, p4))
    requires SplitAt(f.splitCount > 0, b, p4)
             == Some((f.splitCount, Canonical(f).splitId, Canonical(f).splitIndex, p5))
    ensures HeaderAt(b, p) == Some((Canonical(f).(data := []), f.splitCount > 0, p5))
  {
    HeadBack(f);
    BaseKeepsFields(f.reliability);
  }

  lemma OrderingPart(b: Bytes, p: nat, f: MessageFrame)
    requires FieldsFit(f) && Holds(b, p, FromOrdering(f))
    ensures var q := p + (if f.reliability.IsOrdered() then 4 else 0);
      Holds(b, q, FromSplit(f)) && OrderingAt(f.reliability.IsOrdered(), b, p)
                                   == Some((Canonical(f).orderingIndex, Canonical(f).orderingChannel, q))
  {
    HoldsSplit(b, p, Optional(f.reliability.IsOrdered(), OrderingField(f)), FromSplit(f));
    OrderingBack(b, p, f.reliability.IsOrdered(), f);
  }

  lemma SplitPart(b: Bytes, p: nat, f: MessageFrame)
    requires FieldsFit(f) && Holds(b, p, FromSplit(f))
    ensures var q := p + (if f.splitCount > 0 then 10 else 0);
      Holds(b, q, f.data) && SplitAt(f.splitCount > 0, b, p)
                             == Some((f.splitCount, Canonical(f).splitId, Canonical(f).splitIndex, q))
  {
    HoldsSplit(b, p, Optional(f.splitCount > 0, SplitField(f)), f.data);
    SplitBack(b, p, f.splitCount > 0, f);
  }

  lemma NumberPart(b: Bytes, p: nat, f: MessageFrame)
    requires FieldsFit(f) && Holds(b, p, FromNumber(f))
    ensures var q := p + (if f.reliability.IsReliable() then 3 else 0);
      Holds(b, q, FromSequencing(f))
      && OptionalLittleAt(f.reliability.IsReliable(), b, p) == Some((Canonical(f).reliableNumber, q))
  {
    HoldsSplit(b, p, Optional(f.reliability.IsReliable(), LittleEndian(f.reliableNumber, 3)), FromSequencing(f));
    OptionalBack(b, p, f.reliability.IsReliable(), f.reliableNumber);
  }

  lemma SequencingPart(b: Bytes, p: nat, f: MessageFrame)
    requires FieldsFit(f) && Holds(b, p, FromSequencing(f))
    ensures var q := p + (if f.reliability.IsSequenced() then 3 else 0);
      Holds(b, q, FromOrdering(f))
      && OptionalLittleAt(f.reliability.IsSequenced(), b, p) == Some((Canonical(f).sequencingIndex, q))
  {
    HoldsSplit(b, p, Optional(f.reliability.IsSequenced(), LittleEndian(f.sequencingIndex, 3)), FromOrdering(f));
    OptionalBack(b, p, f.reliability.IsSequenced(), f.sequencingIndex);
  }

  lemma FrontPart(b: Bytes, p: nat, f: MessageFrame)
    requires FieldsFit(f) && Holds(b, p, FrameBytes(f))
    ensures p < |b| && b[p] == HeadByte(f) && BigAt(b, p + 1, 2) == Some((f.bitLength, p + 3))
    ensures Holds(b, p + 3, FromNumber(f))
  {
    HoldsSplit(b, p, [HeadByte(f)], BigEndian(f.bitLength, 2) + FromNumber(f));
    HeadIs(b, p, HeadByte(f));
    LengthBack(b, p + 1, f.bitLength, FromNumber(f));
  }

  /** The header fields of a frame in place, peeled off one by one. */
  lemma HeaderPeeled(b: Bytes, p: nat, f: MessageFrame, p2: nat, p3: nat, p4: nat, p5: nat)
    requires FieldsFit(f) && Holds(b, p, FrameBytes(f))
    requires p2 == p + 3 + (if f.reliability.IsReliable() then 3 else 0)
    requires p3 == p2 + (if f.reliability.IsSequenced() then 3 else 0)
    requires p4 == p3 + (if f.reliability.IsOrdered() then 4 else 0)
    requires p5 == p4 + (if f.splitCount > 0 then 10 else 0)
    ensures HeaderAt(b, p) == Some((Canonical(f).(data := []), f.splitCount > 0, p5)) && Holds(b, p5, f.data)
  {
    FrontPart(b, p, f);
    NumberPart(b, p + 3, f);
    SequencingPart(b, p2, f);
    OrderingPart(b, p3, f);
    SplitPart(b, p4, f);
    HeaderFrom(b, p, f, p2, p3, p4, p5);
  }

  lemma HeaderBack(b: Bytes, p: nat, f: MessageFrame)
    requires Holds(b, p, FrameBytes(f)) && FieldsFit(f)
    ensures HeaderAt(b, p) == Some((Canonical(f).(data := []), f.splitCount > 0, p + FrameSize(f) - |f.data|))
    ensures Holds(b, p + FrameSize(f) - |f.data|, f.data)
  {
    var p2 := p + 3 + (if f.reliability.IsReliable() then 3 else 0);
    var p3 := p2 + (if f.reliability.IsSequenced() then 3 else 0);
    var p4 := p3 + (if f.reliability.IsOrdered() then 4 else 0);
    HeaderPeeled(b, p, f, p2, p3, p4, p4 + (if f.splitCount > 0 then 10 else 0));
  }

  lemma HeadIs(b: Bytes, p: nat, v: byte)
    requires Holds(b, p, [v])
    ensures p < |b| && b[p] == v
  {
    assert b[p + 0] == [v][0];
  }

  lemma LengthBack(b: Bytes, p: nat, v: int, rest: Bytes)
    requires Holds(b, p, BigEndian(v, 2) + rest) && UInt(v, 0x10000)
    ensures BigAt(b, p, 2) == Some((v, p + 2)) && Holds(b, p + 2, rest)
  {
    HoldsSplit(b, p, BigEndian(v, 2), rest);
    Pow256Table();
    BigBack(b, p, v, 2);
  }

  lemma RejectedIffEmpty(f: MessageFrame)
    requires FieldsFit(f)
    ensures Rejected(Canonical(f).(data := []), f.splitCount > 0) <==> f.data == []
    ensures Canonical(f).(data := []).(data := f.data) == Canonical(f)
  {
    BaseKeepsFields(f.reliability);
  }

  lemma FrameFrom(b: Bytes, p: nat, f: MessageFrame, q: nat)
    requires p + 4 <= |b| && p < q && FieldsFit(f) && Holds(b, q, f.data)
    requires HeaderAt(b, p) == Some((Canonical(f).(data := []), f.splitCount > 0, q))
    ensures FrameAt(b, p) == if f.data == [] then Stop else Frame(Canonical(f), q + |f.data|)
  {
    RejectedIffEmpty(f);
    HoldsSlice(b, q, f.data);
  }

  /** A frame in place parses to its canonical form; an empty payload stops the parse. */
  lemma FrameBack(b: Bytes, p: nat, f: MessageFrame)
    requires Holds(b, p, FrameBytes(f)) && FieldsFit(f)
    ensures FrameAt(b, p) == if f.data == [] then Stop else Frame(Canonical(f), p + FrameSize(f))
  {
    FrameBytesSize(f);
    if p + 4 <= |b| {
      HeaderBack(b, p, f);
      FrameFrom(b, p, f, p + FrameSize(f) - |f.data|);
    }
  }

  /** The frames before the first empty payload. */
  function UntilEmpty(fs: seq<MessageFrame>): seq<MessageFrame> {
    if fs == [] || fs[0].data == [] then [] else [Canonical(fs[0])] + UntilEmpty(fs[1..])
  }

  lemma FramesAtStop(b: Bytes, p: nat)
    requires FrameAt(b, p) == Stop
    ensures FramesAt(b, p) == Some([])
  {
  }

  lemma FramesAtNext(b: Bytes, p: nat, f: MessageFrame, q: nat, rest: seq<MessageFrame>)
    requires FrameAt(b, p) == Frame(f, q) && FramesAt(b, q) == Some(rest)
    ensures FramesAt(b, p) == Some([f] + rest)
  {
  }

  function Flat(parts: seq<Bytes>): Bytes {
    if parts == [] then [] else parts[0] + Flat(parts[1..])
  }

  /** How many bytes the first i parts take. */
  function Sizes(parts: seq<Bytes>, i: nat): nat
    requires i <= |parts|
  {
    if i == 0 then 0 else |parts[0]| + Sizes(parts[1..], i - 1)
  }

  lemma {:induction false} SizesNext(parts: seq<Bytes>, i: nat)
    requires i < |parts|
    ensures Sizes(parts, i + 1) == Sizes(parts, i) + |parts[i]|
    decreases i
  {
    if i > 0 {
      SizesNext(parts[1..], i - 1);
    }
  }

  lemma {:induction false} SizesAll(parts: seq<Bytes>)
    ensures Sizes(parts, |parts|) == |Flat(parts)|
  {
    if parts != [] {
      SizesAll(parts[1..]);
    }
  }

  lemma {:induction false} HeldPart(b: Bytes, p: nat, parts: seq<Bytes>, i: nat)
    requires Holds(b, p, Flat(parts)) && i < |parts|
    ensures Holds(b, p + Sizes(parts, i), parts[i])
    decreases i
  {
    HoldsSplit(b, p, parts[0], Flat(parts[1..]));
    if i > 0 {
      HeldPart(b, p + |parts[0]|, parts[1..], i - 1);
    }
  }

  function Encodings(fs: seq<MessageFrame>): (r: seq<Bytes>)
    ensures |r| == |fs| && forall i :: 0 <= i < |fs| ==> r[i] == FrameBytes(fs[i])
  {
    seq(|fs|, i requires 0 <= i < |fs| => FrameBytes(fs[i]))
  }

  lemma {:induction false} FlatEncodings(fs: seq<MessageFrame>)
    ensures Flat(Encodings(fs)) == FramesBytes(fs)
  {
    if fs != [] {
      FlatEncodings(fs[1..]);
      assert Encodings(fs)[1..] == Encodings(fs[1..]);
    }
  }

  /** Frame f is read at p, and the next one begins at q. */
  predicate ReadsAt(b: Bytes, p: nat, f: MessageFrame, q: nat) {
    FrameAt(b, p) == if f.data == [] then Stop else Frame(Canonical(f), q)
  }

  lemma FrameReadAt(b: Bytes, p: nat, fs: seq<MessageFrame>, parts: seq<Bytes>, i: nat)
    requires parts == Encodings(fs) && Holds(b, p, Flat(parts)) && i < |fs| && FieldsFit(fs[i])
    ensures ReadsAt(b, p + Sizes(parts, i), fs[i], p + Sizes(parts, i + 1))
  {
    HeldPart(b, p, parts, i);
    SizesNext(parts, i);
    FrameReads(b, p + Sizes(parts, i), fs[i]);
  }

  lemma FrameReads(b: Bytes, p: nat, f: MessageFrame)
    requires Holds(b, p, FrameBytes(f)) && FieldsFit(f)
    ensures ReadsAt(b, p, f, p + |FrameBytes(f)|)
  {
    FrameBack(b, p, f);
    FrameBytesSize(f);
  }

  /** Frame i of fs is read at at[i], and less than a frame's header is left behind the last. */
  ghost predicate Spells(b: Bytes, fs: seq<MessageFrame>, at: seq<nat>) {
    |at| == |fs| + 1 && |b| < at[|fs|] + 4
    && forall i :: 0 <= i < |fs| ==> ReadsAt(b, at[i], fs[i], at[i + 1])
  }

  lemma {:induction false} SpellsReads(b: Bytes, fs: seq<MessageFrame>, at: seq<nat>, i: nat)
    requires Spells(b, fs, at) && i <= |fs|
    ensures FramesAt(b, at[i]) == Some(UntilEmpty(fs[i..]))
    decreases |fs| - i
  {
    if i < |fs| {
      SpellsReads(b, fs, at, i + 1);
      UntilEmptyAt(fs, i);
      ReadStep(b, at[i], fs[i], at[i + 1], UntilEmpty(fs[i + 1..]));
    }
  }

  lemma UntilEmptyAt(fs: seq<MessageFrame>, i: nat)
    requires i < |fs|
    ensures UntilEmpty(fs[i..]) == if fs[i].data == [] then [] else [Canonical(fs[i])] + UntilEmpty(fs[i + 1..])
  {
    assert fs[i..][1..] == fs[i + 1..];
  }

  lemma ReadStep(b: Bytes, p: nat, f: MessageFrame, q: nat, rest: seq<MessageFrame>)
    requires ReadsAt(b, p, f, q) && FramesAt(b, q) == Some(rest)
    ensures FramesAt(b, p) == Some(if f.data == [] then [] else [Canonical(f)] + rest)
  {
    if f.data == [] {
      FramesAtStop(b, p);
    } else {
      FramesAtNext(b, p, Canonical(f), q, rest);
    }
  }

  function Places(p: nat, parts: seq<Bytes>): (r: seq<nat>)
    ensures |r| == |parts| + 1 && forall i :: 0 <= i <= |parts| ==> r[i] == p + Sizes(parts, i)
  {
    seq(|parts| + 1, i requires 0 <= i <= |parts| => p + Sizes(parts, i))
  }

  lemma HeldSpells(b: Bytes, p: nat, fs: seq<MessageFrame>, parts: seq<Bytes>)
    requires parts == Encodings(fs) && Holds(b, p, Flat(parts)) && p + |Flat(parts)| == |b|
    requires forall i :: 0 <= i < |fs| ==> FieldsFit(fs[i])
    ensures Spells(b, fs, Places(p, parts))
  {
    SizesAll(parts);
    var at := Places(p, parts);
    forall i | 0 <= i < |fs|
      ensures ReadsAt(b, at[i], fs[i], at[i + 1])
    {
      assert at[i] == p + Sizes(parts, i) && at[i + 1] == p + Sizes(parts, i + 1);
      FrameReadAt(b, p, fs, parts, i);
    }
  }

  lemma FramesBack(b: Bytes, p: nat, fs: seq<MessageFrame>)
    requires Holds(b, p, FramesBytes(fs)) && p + |FramesBytes(fs)| == |b|
    requires forall i :: 0 <= i < |fs| ==> FieldsFit(fs[i])
    ensures FramesAt(b, p) == Some(UntilEmpty(fs))
  {
    var parts := Encodings(fs);
    FlatEncodings(fs);
    HeldSpells(b, p, fs, parts);
    SpellsReads(b, fs, Places(p, parts), 0);
    assert fs[0..] == fs;
  }

  predicate RangeFits(r: Range) {
    UInt(r.lo, 0x1000000) && UInt(r.hi, 0x1000000)
  }

  lemma RangeBack(b: Bytes, p: nat, r: Range)
    requires Holds(b, p, RangeBytes(r)) && RangeFits(r)
    ensures RangeAt(b, p) == Some((r, p + |RangeBytes(r)|))
  {
    if r.lo == r.hi {
      HoldsSplit(b, p, [1], LittleEndian(r.lo, 3));
      assert [1] == [1 % 256];
      ByteBack(b, p, 1);
      LittleBack(b, p + 1, r.lo);
    } else {
      HoldsSplit(b, p, [0], LittleEndian(r.lo, 3) + LittleEndian(r.hi, 3));
      HoldsSplit(b, p + 1, LittleEndian(r.lo, 3), LittleEndian(r.hi, 3));
      assert [0] == [0 % 256];
      ByteBack(b, p, 0);
      LittleBack(b, p + 1, r.lo);
      LittleBack(b, p + 4, r.hi);
    }
  }

  lemma RangesBackStep(b: Bytes, p: nat, q: nat, rs: seq<Range>, count: nat)
    requires 0 < count <= |rs| && RangeAt(b, p) == Some((rs[0], q)) && RangesAt(b, q, count - 1) == Some(rs[1..][..count - 1])
    ensures RangesAt(b, p, count) == Some(rs[..count])
  {
    RangesAtNext(b, p, rs[0], q, count, rs[1..][..count - 1]);
    PrefixCons(rs, count);
  }

  lemma FirstRangeBack(b: Bytes, p: nat, r: Range, rest: Bytes)
    requires Holds(b, p, RangeBytes(r) + rest) && RangeFits(r)
    ensures RangeAt(b, p) == Some((r, p + |RangeBytes(r)|)) && Holds(b, p + |RangeBytes(r)|, rest)
  {
    HoldsSplit(b, p, RangeBytes(r), rest);
    RangeBack(b, p, r);
  }

  lemma RangesAtNext(b: Bytes, p: nat, r: Range, q: nat, count: nat, rest: seq<Range>)
    requires RangeAt(b, p) == Some((r, q)) && count > 0 && RangesAt(b, q, count - 1) == Some(rest)
    ensures RangesAt(b, p, count) == Some([r] + rest)
  {
  }

  lemma {:induction false} RangesBack(b: Bytes, p: nat, rs: seq<Range>, count: nat)
    requires Holds(b, p, RangesBytes(rs)) && count <= |rs|
    requires forall r <- rs :: RangeFits(r)
    ensures RangesAt(b, p, count) == Some(rs[..count])
    decreases count
  {
    if count > 0 {
      var q := p + |RangeBytes(rs[0])|;
      assert rs[0] in rs && forall r <- rs[1..] :: r in rs;
      FirstRangeBack(b, p, rs[0], RangesBytes(rs[1..]));
      RangesBack(b, q, rs[1..], count - 1);
      RangesBackStep(b, p, q, rs, count);
    }
  }

  lemma PrefixCons(rs: seq<Range>, count: nat)
    requires 0 < count <= |rs|
    ensures [rs[0]] + rs[1..][..count - 1] == rs[..count]
  {
  }

  /** The count travels in 16 bits, and more than 512 are refused. */
  function RangesKept(rs: seq<Range>): Option<seq<Range>> {
    if |rs| % 0x10000 > DATAGRAM_MESSAGE_ID_ARRAY_LENGTH then None else Some(rs[..|rs| % 0x10000])
  }

  lemma CountBack(b: Bytes, p: nat, n: nat)
    requires Holds(b, p, BigEndian(n, 2))
    ensures BigAt(b, p, 2) == Some((n % 0x10000, p + 2))
  {
    HoldsSlice(b, p, BigEndian(n, 2));
    BigEndianValue(n, 2);
    Pow256Table();
  }

  lemma RangeListBack(b: Bytes, p: nat, rs: seq<Range>)
    requires Holds(b, p, RangeListBytes(rs)) && forall r <- rs :: RangeFits(r)
    ensures RangeListAt(b, p) == RangesKept(rs)
  {
    HoldsSplit(b, p, BigEndian(|rs|, 2), RangesBytes(rs));
    CountBack(b, p, |rs|);
    RangesBack(b, p + 2, rs, |rs| % 0x10000);
  }

  predicate Fits(d: Datagram) {
    match d
    case Ack(_, rs) => forall r <- rs :: RangeFits(r)
    case Nak(rs) => forall r <- rs :: RangeFits(r)
    case Data(n, _, _, _, fs) => UInt(n, 0x1000000) && forall f <- fs :: FieldsFit(f)
  }

  /** What the far side reads. */
  function Received(d: Datagram): Option<Datagram> {
    match d
    case Ack(b, rs) => var kept :- RangesKept(rs); Some(Ack(b, kept))
    case Nak(rs) => var kept :- RangesKept(rs); Some(Nak(kept))
    case Data(n, pair, cont, needs, fs) => Some(Datagram.Data(n, pair, cont, needs, UntilEmpty(fs)))
  }

  lemma FlagsBack(pair: bool, cont: bool, needs: bool)
    ensures var v := 128 + FlagBit(pair, 16) + FlagBit(cont, 8) + FlagBit(needs, 4);
      v < 256 && v / 128 % 2 == 1 && v / 64 % 2 == 0 && v / 32 % 2 == 0
      && (v / 16 % 2 == 1) == pair && (v / 8 % 2 == 1) == cont && (v / 4 % 2 == 1) == needs
  {
  }

  lemma HoldsAll(b: Bytes)
    ensures Holds(b, 0, b)
  {
  }

  lemma ParseAckFrom(b: Bytes, has: bool, rs: seq<Range>)
    requires b != [] && b[0] == 192 + FlagBit(has, 32) && (has ==> |b| >= 5)
    requires RangeListAt(b, if has then 5 else 1) == RangesKept(rs)
    ensures Parse(b) == Received(Ack(has, rs))
  {
  }

  lemma ParseAck(b: Bytes, has: bool, rs: seq<Range>, skip: Bytes, list: Bytes)
    requires Holds(b, 0, [192 + FlagBit(has, 32)] + (skip + list))
    requires |skip| == (if has then 4 else 0) && list == RangeListBytes(rs) && forall r <- rs :: RangeFits(r)
    ensures Parse(b) == Received(Ack(has, rs))
  {
    HoldsSplit(b, 0, [192 + FlagBit(has, 32)], skip + list);
    HoldsSplit(b, 1, skip, list);
    HeadIs(b, 0, 192 + FlagBit(has, 32));
    RangeListBack(b, 1 + |skip|, rs);
    ParseAckFrom(b, has, rs);
  }

  lemma ParseNakFrom(b: Bytes, rs: seq<Range>)
    requires b != [] && b[0] == 160 && RangeListAt(b, 1) == RangesKept(rs)
    ensures Parse(b) == Received(Nak(rs))
  {
  }

  lemma ParseNak(b: Bytes, rs: seq<Range>, list: Bytes)
    requires Holds(b, 0, [160] + list) && list == RangeListBytes(rs) && forall r <- rs :: RangeFits(r)
    ensures Parse(b) == Received(Nak(rs))
  {
    HoldsSplit(b, 0, [160], list);
    HeadIs(b, 0, 160);
    RangeListBack(b, 1, rs);
    ParseNakFrom(b, rs);
  }

  lemma ParseDataFrom(b: Bytes, d: Datagram)
    requires d.Data? && |b| >= 4
    requires b[0] == 128 + FlagBit(d.packetPair, 16) + FlagBit(d.continuousSend, 8) + FlagBit(d.needsBandwidth, 4)
    requires LittleAt(b, 1) == Some((d.number, 4)) && FramesAt(b, 4) == Some(UntilEmpty(d.frames))
    ensures Parse(b) == Received(d)
  {
    FlagsBack(d.packetPair, d.continuousSend, d.needsBandwidth);
  }

  lemma ParseData(b: Bytes, d: Datagram, flags: Bytes, number: Bytes, body: Bytes)
    requires d.Data? && Fits(d) && Holds(b, 0, flags + (number + body)) && |b| == |flags + (number + body)|
    requires number == LittleEndian(d.number, 3) && body == FramesBytes(d.frames)
    requires flags == [128 + FlagBit(d.packetPair, 16) + FlagBit(d.continuousSend, 8) + FlagBit(d.needsBandwidth, 4)]
    ensures Parse(b) == Received(d)
  {
    HoldsSplit(b, 0, flags, number + body);
    HoldsSplit(b, 1, number, body);
    HeadIs(b, 0, flags[0]);
    LittleBack(b, 1, d.number);
    FramesBack(b, 4, d.frames);
    ParseDataFrom(b, d);
  }

  /** Parsing what was encoded gives back number, flags and frames up to the
      first empty payload, or the range list as far as its count survives. */
  lemma ParseBack(d: Datagram)
    requires Fits(d)
    ensures Parse(DatagramBytes(d)) == Received(d)
  {
    match d
    case Ack(has, rs) => AckBack(has, rs);
    case Nak(rs) => NakBack(rs);
    case Data(_, _, _, _, _) => DataBack(d);
  }

  lemma AckBack(has: bool, rs: seq<Range>)
    requires Fits(Ack(has, rs))
    ensures Parse(DatagramBytes(Ack(has, rs))) == Received(Ack(has, rs))
  {
    AckBytesBack(has, rs, Optional(has, [0, 0, 0, 0]), RangeListBytes(rs));
  }

  lemma AckBytesBack(has: bool, rs: seq<Range>, extra: Bytes, list: Bytes)
    requires Fits(Ack(has, rs)) && extra == Optional(has, [0, 0, 0, 0]) && list == RangeListBytes(rs)
    ensures Parse([192 + FlagBit(has, 32)] + (extra + list)) == Received(Ack(has, rs))
  {
    HoldsAll([192 + FlagBit(has, 32)] + (extra + list));
    ParseAck([192 + FlagBit(has, 32)] + (extra + list), has, rs, extra, list);
  }

  lemma NakBack(rs: seq<Range>)
    requires Fits(Nak(rs))
    ensures Parse(DatagramBytes(Nak(rs))) == Received(Nak(rs))
  {
    var b := DatagramBytes(Nak(rs));
    HoldsAll(b);
    ParseNak(b, rs, RangeListBytes(rs));
  }

  lemma DataBack(d: Datagram)
    requires d.Data? && Fits(d)
    ensures Parse(DatagramBytes(d)) == Received(d)
  {
    var b := DatagramBytes(d);
    HoldsAll(b);
    ParseData(b, d, [128 + FlagBit(d.packetPair, 16) + FlagBit(d.continuousSend, 8) + FlagBit(d.needsBandwidth, 4)],
              LittleEndian(d.number, 3), FramesBytes(d.frames));
  }

  lemma {:induction false} UntilEmptyAll(fs: seq<MessageFrame>)
    ensures |UntilEmpty(fs)| == |fs| <==> forall f <- fs :: f.data != []
    ensures |UntilEmpty(fs)| <= |fs|
    ensures forall i :: 0 <= i < |UntilEmpty(fs)| ==> UntilEmpty(fs)[i] == Canonical(fs[i])
  {
    if fs != [] && fs[0].data != [] {
      UntilEmptyAll(fs[1..]);
      assert fs == [fs[0]] + fs[1..];
    }
  }

  /** A data datagram comes back whole exactly when no payload is empty. */
  lemma DataRoundTrip(d: Datagram)
    requires d.Data? && Fits(d)
    ensures Parse(DatagramBytes(d)).Some? && Parse(DatagramBytes(d)).value.Data?
    ensures var r := Parse(DatagramBytes(d)).value;
      r.number == d.number && r.packetPair == d.packetPair && r.continuousSend == d.continuousSend
      && r.needsBandwidth == d.needsBandwidth
      && ((forall f <- d.frames :: f.data != []) <==>
          |r.frames| == |d.frames| && forall i :: 0 <= i < |d.frames| ==> r.frames[i] == Canonical(d.frames[i]))
  {
    ParseBack(d);
    UntilEmptyAll(d.frames);
  }

  /** An ACK or NAK of fewer than 65536 ranges comes back whole exactly when it has at most 512. */
  lemma RangeRoundTrip(d: Datagram)
    requires !d.Data? && Fits(d) && |d.ranges| < 0x10000
    ensures Parse(DatagramBytes(d))
            == if |d.ranges| <= DATAGRAM_MESSAGE_ID_ARRAY_LENGTH then Some(d) else None
  {
    ParseBack(d);
    AllKept(d.ranges);
  }

  lemma AllKept(rs: seq<Range>)
    requires |rs| < 0x10000
    ensures RangesKept(rs) == if |rs| <= DATAGRAM_MESSAGE_ID_ARRAY_LENGTH then Some(rs) else None
  {
    assert rs[..|rs|] == rs;
  }
}
