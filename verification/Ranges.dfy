/** Range lists: merging, packing into ACK and NAK packets, and the numbers a
    packet names (_reliability.py:502-526, 849-878, 895-906). */
module Ranges {
  import opened SeqNum
  import opened Types
  import opened WireFormat
  import Codec

  // ---------- merging ----------

  predicate Covers(rs: seq<Range>, n: int) {
    exists r <- rs :: r.lo <= n <= r.hi
  }

  predicate Proper(rs: seq<Range>) {
    forall r <- rs :: r.lo <= r.hi
  }

  /** Sorted, disjoint, and with a gap between neighbours. */
  predicate Separated(rs: seq<Range>) {
    Proper(rs) && forall i, j :: 0 <= i < j < |rs| ==> rs[i].hi + 1 < rs[j].lo
  }

  /** Tuples in Python order. */
  predicate Before(a: Range, b: Range) {
    a.lo < b.lo || (a.lo == b.lo && a.hi <= b.hi)
  }

  predicate Sorted(rs: seq<Range>) {
    forall i, j :: 0 <= i < j < |rs| ==> Before(rs[i], rs[j])
  }

  function Insert(rs: seq<Range>, r: Range): seq<Range> {
    if rs == [] then [r]
    else if Before(r, rs[0]) then [r] + rs
    else [rs[0]] + Insert(rs[1..], r)
  }

  /** What `list.sort` returns. */
  function Sort(rs: seq<Range>): seq<Range> {
    if rs == [] then [] else Insert(Sort(rs[..|rs| - 1]), rs[|rs| - 1])
  }

  lemma {:induction false} InsertSorts(rs: seq<Range>, r: Range)
    requires Sorted(rs)
    ensures Sorted(Insert(rs, r))
  {
    if rs != [] && !Before(r, rs[0]) {
      InsertSorts(rs[1..], r);
      var t := Insert(rs[1..], r);
      forall i | 0 <= i < |t|
        ensures Before(rs[0], t[i])
      {
        Inserted(rs[1..], r, i);
      }
    }
  }

  /** Each element of the result is r or was there before. */
  lemma {:induction false} Inserted(rs: seq<Range>, r: Range, i: nat)
    requires i < |Insert(rs, r)|
    ensures Insert(rs, r)[i] == r || exists j :: 0 <= j < |rs| && Insert(rs, r)[i] == rs[j]
  {
    if rs != [] && !Before(r, rs[0]) && i > 0 {
      Inserted(rs[1..], r, i - 1);
      if Insert(rs[1..], r)[i - 1] != r {
        var j :| 0 <= j < |rs[1..]| && Insert(rs[1..], r)[i - 1] == rs[1..][j];
        assert rs[j + 1] == rs[1..][j];
      }
    }
  }

  lemma {:induction false} InsertPermutes(rs: seq<Range>, r: Range)
    ensures multiset(Insert(rs, r)) == multiset(rs) + multiset{r}
  {
    if rs != [] {
      assert rs == [rs[0]] + rs[1..];
      if !Before(r, rs[0]) {
        InsertPermutes(rs[1..], r);
      }
    }
  }

  lemma {:induction false} SortSorts(rs: seq<Range>)
    ensures Sorted(Sort(rs)) && multiset(Sort(rs)) == multiset(rs)
  {
    if rs != [] {
      SortSorts(rs[..|rs| - 1]);
      InsertSorts(Sort(rs[..|rs| - 1]), rs[|rs| - 1]);
      InsertPermutes(Sort(rs[..|rs| - 1]), rs[|rs| - 1]);
      assert rs == rs[..|rs| - 1] + [rs[|rs| - 1]];
    }
  }

  lemma SameElements(a: seq<Range>, b: seq<Range>, n: int)
    requires multiset(a) == multiset(b)
    ensures Covers(a, n) == Covers(b, n) && Proper(a) == Proper(b)
  {
    forall r
      ensures r in a <==> r in b
    {
      assert r in multiset(a) <==> r in multiset(b);
    }
  }

  lemma CoversAppend(rs: seq<Range>, r: Range, n: int)
    ensures Covers(rs + [r], n) <==> Covers(rs, n) || r.lo <= n <= r.hi
  {
    if Covers(rs, n) {
      var q :| q in rs && q.lo <= n <= q.hi;
      assert q in rs + [r];
    }
    assert r in rs + [r];
  }

  /** The sorted ranges, merged with their neighbours. */
  method MergeSorted(rs: seq<Range>) returns (merged: seq<Range>)
    requires Sorted(rs) && Proper(rs)
    ensures Separated(merged) && forall n :: Covers(merged, n) <==> Covers(rs, n)
  {
    merged := [];
    for i := 0 to |rs|
      invariant Separated(merged) && forall n :: Covers(merged, n) <==> Covers(rs[..i], n)
      invariant i < |rs| ==> forall m <- merged :: m.lo <= rs[i].lo
    {
      var r := rs[i];
      assert rs[..i + 1] == rs[..i] + [r];
      forall n
        ensures Covers(rs[..i + 1], n) <==> Covers(merged, n) || r.lo <= n <= r.hi
      {
        CoversAppend(rs[..i], r, n);
      }
      if |merged| > 0 && r.lo <= merged[|merged| - 1].hi + 1 {
        var front, last := merged[..|merged| - 1], merged[|merged| - 1];
        assert merged == front + [last];
        forall n
          ensures Covers(front + [Range(last.lo, Max(last.hi, r.hi))], n) <==> Covers(merged, n) || r.lo <= n <= r.hi
        {
          CoversAppend(front, last, n);
          CoversAppend(front, Range(last.lo, Max(last.hi, r.hi)), n);
        }
        merged := front + [Range(last.lo, Max(last.hi, r.hi))];
      } else {
        forall n
          ensures Covers(merged + [r], n) <==> Covers(merged, n) || r.lo <= n <= r.hi
        {
          CoversAppend(merged, r, n);
        }
        merged := merged + [r];
      }
    }
    assert rs[..|rs|] == rs;
  }

  /** `_add_to_ranges`: any proper list becomes separated and names one number more. */
  method AddToRanges(ranges: seq<Range>, value: int) returns (merged: seq<Range>)
    requires Proper(ranges)
    ensures Separated(merged) && forall n :: Covers(merged, n) <==> Covers(ranges, n) || n == value
  {
    var all := ranges + [Range(value, value)];
    SortSorts(all);
    forall n
      ensures Covers(Sort(all), n) <==> Covers(ranges, n) || n == value
    {
      SameElements(Sort(all), all, n);
      CoversAppend(ranges, Range(value, value), n);
    }
    SameElements(Sort(all), all, 0);
    merged := MergeSorted(Sort(all));
  }

  lemma FirstIsLeast(a: seq<Range>, n: int)
    requires Separated(a) && a != []
    ensures Covers(a, a[0].lo) && Covers(a, a[0].hi) && (Covers(a, n) ==> n >= a[0].lo)
    ensures Covers(a[1..], n) <==> Covers(a, n) && n > a[0].hi
    ensures !Covers(a, a[0].hi + 1)
  {
    assert a == [a[0]] + a[1..];
    assert a[0].lo <= a[0].hi;
  }

  /** A set of numbers has one separated range list: the merge result is
      determined by what it covers. */
  lemma {:induction false} SeparatedUnique(a: seq<Range>, b: seq<Range>)
    requires Separated(a) && Separated(b) && forall n :: Covers(a, n) <==> Covers(b, n)
    ensures a == b
    decreases |a|
  {
    if a == [] {
      if b != [] {
        FirstIsLeast(b, 0);
        assert false;
      }
    } else if b == [] {
      FirstIsLeast(a, 0);
      assert false;
    } else {
      FirstIsLeast(a, b[0].lo);
      FirstIsLeast(b, a[0].lo);
      assert a[0].lo == b[0].lo;
      SameFirstEnd(a, b);
      SameFirstEnd(b, a);
      forall n
        ensures Covers(a[1..], n) <==> Covers(b[1..], n)
      {
        FirstIsLeast(a, n);
        FirstIsLeast(b, n);
      }
      SeparatedUnique(a[1..], b[1..]);
      assert a == [a[0]] + a[1..] && b == [b[0]] + b[1..];
    }
  }

  lemma SameFirstEnd(a: seq<Range>, b: seq<Range>)
    requires Separated(a) && Separated(b) && a != [] && b != [] && a[0].lo == b[0].lo
    requires forall n :: Covers(a, n) <==> Covers(b, n)
    ensures a[0].hi >= b[0].hi
  {
    FirstIsLeast(a, 0);
    FirstCovers(b, a[0].hi + 1);
  }

  lemma FirstCovers(b: seq<Range>, n: int)
    requires b != []
    ensures b[0].lo <= n <= b[0].hi ==> Covers(b, n)
  {
    assert b[0] in b;
  }

  // ---------- packing ----------

  function RangeSize(r: Range): nat {
    if r.lo == r.hi then 4 else 7
  }

  function RangesSize(rs: seq<Range>): nat {
    if rs == [] then 0 else RangesSize(rs[..|rs| - 1]) + RangeSize(rs[|rs| - 1])
  }

  /** The greedy cut of the ranges into packets of at most maxSize bytes. */
  function Cut(rs: seq<Range>, current: seq<Range>, maxSize: int): seq<seq<Range>>
    decreases |rs|
  {
    if rs == [] then (if current == [] then [] else [current])
    else if 3 + RangesSize(current) + RangeSize(rs[0]) > maxSize && current != [] then
      [current] + Cut(rs[1..], [rs[0]], maxSize)
    else Cut(rs[1..], current + [rs[0]], maxSize)
  }

  function Concat<T>(xs: seq<seq<T>>): seq<T> {
    if xs == [] then [] else xs[0] + Concat(xs[1..])
  }

  lemma {:induction false} CutConserves(rs: seq<Range>, current: seq<Range>, maxSize: int)
    ensures Concat(Cut(rs, current, maxSize)) == current + rs
    decreases |rs|
  {
    if rs == [] {
      assert Concat([current]) == current + Concat([]);
    } else if 3 + RangesSize(current) + RangeSize(rs[0]) > maxSize && current != [] {
      CutConserves(rs[1..], [rs[0]], maxSize);
      assert [rs[0]] + rs[1..] == rs;
    } else {
      CutConserves(rs[1..], current + [rs[0]], maxSize);
      assert current + [rs[0]] + rs[1..] == current + rs;
    }
  }

  lemma SizeSnoc(rs: seq<Range>, r: Range)
    ensures RangesSize(rs + [r]) == RangesSize(rs) + RangeSize(r)
  {
    assert (rs + [r])[..|rs|] == rs;
  }

  lemma {:induction false} CutFits(rs: seq<Range>, current: seq<Range>, maxSize: int)
    requires maxSize >= 10 && 3 + RangesSize(current) <= maxSize
    ensures forall c <- Cut(rs, current, maxSize) :: c != [] && 3 + RangesSize(c) <= maxSize
    decreases |rs|
  {
    if rs != [] {
      SizeSnoc(current, rs[0]);
      SizeSnoc([], rs[0]);
      assert [] + [rs[0]] == [rs[0]];
      if 3 + RangesSize(current) + RangeSize(rs[0]) > maxSize && current != [] {
        CutFits(rs[1..], [rs[0]], maxSize);
      } else {
        CutFits(rs[1..], current + [rs[0]], maxSize);
      }
    }
  }

  lemma {:induction false} CutWhole(rs: seq<Range>, current: seq<Range>, maxSize: int)
    requires 3 + RangesSize(current + rs) <= maxSize && current + rs != []
    ensures Cut(rs, current, maxSize) == [current + rs]
    decreases |rs|
  {
    if rs == [] {
      assert current + rs == current;
    } else {
      assert current + rs == current + [rs[0]] + rs[1..];
      SizeSnoc(current, rs[0]);
      SizeGrows(current + [rs[0]], rs[1..]);
      CutWhole(rs[1..], current + [rs[0]], maxSize);
    }
  }

  lemma OnePacket(rs: seq<Range>, maxSize: int)
    requires rs != [] && 3 + RangesSize(rs) <= maxSize
    ensures Cut(rs, [], maxSize) == [rs]
  {
    var none: seq<Range> := [];
    assert none + rs == rs;
    CutWhole(rs, none, maxSize);
  }

  lemma {:induction false} SizeGrows(a: seq<Range>, b: seq<Range>)
    ensures RangesSize(a) <= RangesSize(a + b)
    decreases |b|
  {
    if b == [] {
      assert a + b == a;
    } else {
      SizeGrows(a, b[..|b| - 1]);
      SizeSnoc(a + b[..|b| - 1], b[|b| - 1]);
      assert a + b == a + b[..|b| - 1] + [b[|b| - 1]];
    }
  }

  lemma {:induction false} SizeCounts(rs: seq<Range>)
    ensures 4 * |rs| <= RangesSize(rs) <= 7 * |rs|
  {
    if rs != [] {
      SizeCounts(rs[..|rs| - 1]);
    }
  }

  lemma {:induction false} EncodedSize(rs: seq<Range>)
    ensures |RangesBytes(rs)| == RangesSize(rs)
  {
    if rs != [] {
      EncodedSize(rs[1..]);
      SizeCons(rs[0], rs[1..]);
      assert [rs[0]] + rs[1..] == rs;
    }
  }

  lemma {:induction false} SizeCons(r: Range, rs: seq<Range>)
    ensures RangesSize([r] + rs) == RangeSize(r) + RangesSize(rs)
    decreases |rs|
  {
    if rs == [] {
      assert [r] + rs == [] + [r];
      SizeSnoc([], r);
    } else {
      assert [r] + rs == [r] + rs[..|rs| - 1] + [rs[|rs| - 1]];
      SizeSnoc([r] + rs[..|rs| - 1], rs[|rs| - 1]);
      SizeCons(r, rs[..|rs| - 1]);
    }
  }

  function Packet(isAck: bool, rs: seq<Range>): Datagram {
    if isAck then Ack(false, rs) else Nak(rs)
  }

  lemma PacketSize(isAck: bool, rs: seq<Range>)
    ensures |DatagramBytes(Packet(isAck, rs))| == 3 + RangesSize(rs)
  {
    EncodedSize(rs);
  }

  /** One packet per piece of the greedy cut. */
  ghost predicate PacketsOf(packets: seq<Bytes>, ranges: seq<Range>, mtu: int, isAck: bool) {
    var cut := Cut(ranges, [], mtu - UDP_HEADER_SIZE);
    |packets| == |cut| && forall i :: 0 <= i < |cut| ==> packets[i] == DatagramBytes(Packet(isAck, cut[i]))
  }

  /** The packets of the first pieces of a cut; left are the pieces still to come. */
  ghost predicate Built(packets: seq<Bytes>, cut: seq<seq<Range>>, left: seq<seq<Range>>, isAck: bool) {
    |packets| <= |cut| && cut[|packets|..] == left
    && forall k :: 0 <= k < |packets| ==> packets[k] == DatagramBytes(Packet(isAck, cut[k]))
  }

  lemma BuiltMore(packets: seq<Bytes>, cut: seq<seq<Range>>, c: seq<Range>, left: seq<seq<Range>>, isAck: bool, raw: Bytes)
    requires Built(packets, cut, [c] + left, isAck) && raw == DatagramBytes(Packet(isAck, c))
    ensures Built(packets + [raw], cut, left, isAck)
  {
    assert cut[|packets|] == cut[|packets|..][0];
    assert cut[|packets| + 1..] == cut[|packets|..][1..] == left;
  }

  lemma CutNext(rs: seq<Range>, i: nat, current: seq<Range>, maxSize: int)
    requires i < |rs|
    ensures Cut(rs[i..], current, maxSize)
            == if 3 + RangesSize(current) + RangeSize(rs[i]) > maxSize && current != [] then
                 [current] + Cut(rs[i + 1..], [rs[i]], maxSize)
               else Cut(rs[i + 1..], current + [rs[i]], maxSize)
  {
    assert rs[i..][1..] == rs[i + 1..];
  }

  /** `_build_range_packets`. */
  method BuildRangePackets(mtu: int, ranges: seq<Range>, isAck: bool) returns (packets: seq<Bytes>)
    ensures PacketsOf(packets, ranges, mtu, isAck)
  {
    var maxSize := mtu - UDP_HEADER_SIZE;
    ghost var cut := Cut(ranges, [], maxSize);
    packets := [];
    var current: seq<Range> := [];
    var currentSize := 3;
    assert ranges[0..] == ranges;
    for i := 0 to |ranges|
      invariant currentSize == 3 + RangesSize(current)
      invariant Built(packets, cut, Cut(ranges[i..], current, maxSize), isAck)
    {
      var r := ranges[i];
      CutNext(ranges, i, current, maxSize);
      if currentSize + RangeSize(r) > maxSize && current != [] {
        var raw := EncodePacket(isAck, current);
        BuiltMore(packets, cut, current, Cut(ranges[i + 1..], [r], maxSize), isAck, raw);
        packets := packets + [raw];
        current, currentSize := [], 3;
        assert [] + [r] == [r];
      }
      SizeSnoc(current, r);
      current := current + [r];
      currentSize := currentSize + RangeSize(r);
    }
    if current != [] {
      var raw := EncodePacket(isAck, current);
      assert [current] + [] == [current];
      BuiltMore(packets, cut, current, [], isAck, raw);
      packets := packets + [raw];
    }
  }

  method EncodePacket(isAck: bool, ranges: seq<Range>) returns (raw: Bytes)
    ensures raw == DatagramBytes(Packet(isAck, ranges))
  {
    if isAck {
      raw := Codec.EncodeAck(ranges, false);
    } else {
      raw := Codec.EncodeNak(ranges);
    }
  }

  const MAX_RANGE_MTU := 2082

  lemma {:induction false} InConcat<T>(xs: seq<seq<T>>, x: seq<T>, y: T)
    requires x in xs && y in x
    ensures y in Concat(xs)
  {
    if x != xs[0] {
      assert x in xs[1..];
      InConcat(xs[1..], x, y);
    }
  }

  /** Up to MTU 2082 every packet fits the MTU and parses back to its piece,
      and the pieces make up the list: the set survives the trip. */
  lemma PacketsSurvive(mtu: int, ranges: seq<Range>, isAck: bool)
    requires 38 <= mtu <= MAX_RANGE_MTU && forall r <- ranges :: RangeFits(r)
    ensures var cut := Cut(ranges, [], mtu - UDP_HEADER_SIZE);
      Concat(cut) == ranges && forall c <- cut :: c != [] && |DatagramBytes(Packet(isAck, c))| <= mtu - UDP_HEADER_SIZE
                                              && Parse(DatagramBytes(Packet(isAck, c))) == Some(Packet(isAck, c))
  {
    var maxSize := mtu - UDP_HEADER_SIZE;
    var cut := Cut(ranges, [], maxSize);
    CutConserves(ranges, [], maxSize);
    assert [] + ranges == ranges;
    CutFits(ranges, [], maxSize);
    forall c | c in cut
      ensures |DatagramBytes(Packet(isAck, c))| <= maxSize
      ensures Parse(DatagramBytes(Packet(isAck, c))) == Some(Packet(isAck, c))
    {
      PacketSize(isAck, c);
      SizeCounts(c);
      forall r | r in c
        ensures RangeFits(r)
      {
        InConcat(cut, c, r);
      }
      RangeRoundTrip(Packet(isAck, c));
    }
  }

  function Singles(n: nat): seq<Range> {
    if n == 0 then [] else Singles(n - 1) + [Range(2 * n, 2 * n)]
  }

  lemma {:induction false} SinglesAt(n: nat, i: nat)
    requires i < n
    ensures |Singles(n)| == n && Singles(n)[i] == Range(2 * (i + 1), 2 * (i + 1))
  {
    SinglesCount(n - 1);
    if i < n - 1 {
      SinglesAt(n - 1, i);
    }
  }

  lemma {:induction false} SinglesCount(n: nat)
    ensures |Singles(n)| == n && RangesSize(Singles(n)) == 4 * n
  {
    if n > 0 {
      SinglesCount(n - 1);
      SizeSnoc(Singles(n - 1), Range(2 * n, 2 * n));
    }
  }

  lemma SinglesSize(n: nat)
    ensures |Singles(n)| == n && RangesSize(Singles(n)) == 4 * n
    ensures forall r <- Singles(n) :: 0 < r.lo == r.hi <= 2 * n
    ensures Separated(Singles(n))
  {
    SinglesCount(n);
    forall i | 0 <= i < n
      ensures Singles(n)[i] == Range(2 * (i + 1), 2 * (i + 1))
    {
      SinglesAt(n, i);
    }
  }

  /** A list of more than 512 ranges that still fits one packet is refused by the peer. */
  lemma PacketTooLong(mtu: int, isAck: bool, rs: seq<Range>)
    requires DATAGRAM_MESSAGE_ID_ARRAY_LENGTH < |rs| < 0x10000 && forall r <- rs :: RangeFits(r)
    requires 3 + RangesSize(rs) <= mtu - UDP_HEADER_SIZE
    ensures Cut(rs, [], mtu - UDP_HEADER_SIZE) == [rs] && Parse(DatagramBytes(Packet(isAck, rs))) == None
  {
    OnePacket(rs, mtu - UDP_HEADER_SIZE);
    RangeRoundTrip(Packet(isAck, rs));
  }

  /** Every packet the list is cut into is read by the peer as it was built. */
  ghost predicate AllRead(rs: seq<Range>, mtu: int, isAck: bool) {
    forall c <- Cut(rs, [], mtu - UDP_HEADER_SIZE) :: Parse(DatagramBytes(Packet(isAck, c))) == Some(Packet(isAck, c))
  }

  ghost predicate Reportable(rs: seq<Range>) {
    Separated(rs) && forall r <- rs :: RangeFits(r)
  }

  /** All range lists get through if and only if the MTU is at most 2082:
      above, 513 single numbers share one packet, which the peer refuses. */
  lemma ReadUpTo2082(mtu: int, isAck: bool)
    requires mtu >= 38
    ensures mtu <= MAX_RANGE_MTU <==> forall rs :: Reportable(rs) ==> AllRead(rs, mtu, isAck)
  {
    if mtu <= MAX_RANGE_MTU {
      forall rs | Reportable(rs)
        ensures AllRead(rs, mtu, isAck)
      {
        PacketsSurvive(mtu, rs, isAck);
      }
    } else {
      var n := DATAGRAM_MESSAGE_ID_ARRAY_LENGTH + 1;
      SinglesSize(n);
      PacketTooLong(mtu, isAck, Singles(n));
      assert Reportable(Singles(n)) && Singles(n) in Cut(Singles(n), [], mtu - UDP_HEADER_SIZE);
    }
  }

  // ---------- the numbers a packet names ----------

  /** lo, lo + 1, ... around the circle up to hi. */
  function Span(r: Range): (s: seq<int>)
    ensures |s| == Ahead(r.hi, r.lo) + 1
  {
    seq(Ahead(r.hi, r.lo) + 1, i requires 0 <= i => Wire(r.lo + i))
  }

  function Named(rs: seq<Range>): seq<int> {
    if rs == [] then [] else Span(rs[0]) + Named(rs[1..])
  }

  /** The numbers one ACK or NAK acts on: the first 512 it names. */
  function Processed(rs: seq<Range>): seq<int> {
    Named(rs)[..Min(|Named(rs)|, DATAGRAM_MESSAGE_ID_ARRAY_LENGTH)]
  }

  lemma {:induction false} NamedOnWire(rs: seq<Range>)
    ensures forall i :: 0 <= i < |Named(rs)| ==> 0 <= Named(rs)[i] < SEQ_MOD
  {
    if rs != [] {
      NamedOnWire(rs[1..]);
      SpanOnWire(rs[0]);
    }
  }

  lemma SpanOnWire(r: Range)
    ensures forall i :: 0 <= i < |Span(r)| ==> 0 <= Span(r)[i] < SEQ_MOD
  {
    forall i | 0 <= i < |Span(r)|
      ensures 0 <= Span(r)[i] < SEQ_MOD
    {
      assert Span(r)[i] == Wire(r.lo + i);
    }
  }

  lemma ProcessedOnWire(rs: seq<Range>)
    ensures forall i :: 0 <= i < |Processed(rs)| ==> 0 <= Processed(rs)[i] < SEQ_MOD
  {
    NamedOnWire(rs);
  }

  lemma NamedSplit(rs: seq<Range>, i: nat)
    requires i < |rs|
    ensures Named(rs) == Named(rs[..i]) + Span(rs[i]) + Named(rs[i + 1..])
    ensures Named(rs[..i + 1]) == Named(rs[..i]) + Span(rs[i])
  {
    NamedJoin(rs, i + 1);
    NamedSnoc(rs, i);
  }

  lemma NamedSnoc(rs: seq<Range>, i: nat)
    requires i < |rs|
    ensures Named(rs[..i + 1]) == Named(rs[..i]) + Span(rs[i])
  {
    NamedJoin(rs[..i + 1], i);
    assert rs[..i + 1][..i] == rs[..i] && rs[..i + 1][i..] == [rs[i]];
    assert Named([rs[i]]) == Span(rs[i]) + Named([]);
  }

  lemma {:induction false} NamedJoin(rs: seq<Range>, i: nat)
    requires i <= |rs|
    ensures Named(rs) == Named(rs[..i]) + Named(rs[i..])
  {
    if i == 0 {
      assert rs[..0] == [] && rs[0..] == rs;
    } else {
      NamedJoin(rs[1..], i - 1);
      assert rs[..i][1..] == rs[1..][..i - 1] && rs[1..][i - 1..] == rs[i..];
      assert Span(rs[0]) + (Named(rs[1..][..i - 1]) + Named(rs[i..]))
          == Span(rs[0]) + Named(rs[1..][..i - 1]) + Named(rs[i..]);
    }
  }

  /** A traversal of the ranges has met ws, stopping at 512. */
  ghost predicate Traversed(rs: seq<Range>, i: nat, k: nat, ws: seq<int>)
    requires i <= |rs|
  {
    |ws| <= DATAGRAM_MESSAGE_ID_ARRAY_LENGTH && ws <= Named(rs)
    && (|ws| == DATAGRAM_MESSAGE_ID_ARRAY_LENGTH || |ws| == |Named(rs[..i])| + k)
  }

  lemma TraverseNext(rs: seq<Range>, i: nat, k: nat, ws: seq<int>)
    requires i < |rs| && Traversed(rs, i, k, ws) && |ws| < DATAGRAM_MESSAGE_ID_ARRAY_LENGTH && k < |Span(rs[i])|
    ensures Traversed(rs, i, k + 1, ws + [Wire(rs[i].lo + k)])
  {
    NamedSplit(rs, i);
    assert Named(rs)[|ws|] == Span(rs[i])[k];
  }

  /** The code looks at no more than 512 numbers of one range. */
  lemma TraverseRange(rs: seq<Range>, i: nat, count: nat, ws: seq<int>)
    requires i < |rs| && count == Min(|Span(rs[i])|, DATAGRAM_MESSAGE_ID_ARRAY_LENGTH) && Traversed(rs, i, count, ws)
    ensures Traversed(rs, i + 1, 0, ws)
  {
    NamedSplit(rs, i);
  }

  lemma TraverseFull(rs: seq<Range>, i: nat, k: nat, ws: seq<int>)
    requires i <= |rs| && Traversed(rs, i, k, ws)
    requires |ws| == DATAGRAM_MESSAGE_ID_ARRAY_LENGTH || (i == |rs| && k == 0)
    ensures ws == Processed(rs)
  {
    assert rs[..|rs|] == rs;
  }

  lemma SpanCovers(r: Range, n: int)
    requires RangeFits(r) && r.lo <= r.hi
    ensures n in Span(r) <==> r.lo <= n <= r.hi
  {
    assert Ahead(r.hi, r.lo) == r.hi - r.lo;
    forall i | 0 <= i < |Span(r)|
      ensures Span(r)[i] == r.lo + i
    {
      assert 0 <= r.lo + i < SEQ_MOD;
      assert Span(r)[i] == Wire(r.lo + i);
    }
    if r.lo <= n <= r.hi {
      assert Span(r)[n - r.lo] == n;
    }
  }

  /** A list of 24-bit ranges names what it covers. */
  lemma {:induction false} NamedCovers(rs: seq<Range>, n: int)
    requires Proper(rs) && forall r <- rs :: RangeFits(r)
    ensures n in Named(rs) <==> Covers(rs, n)
  {
    if rs != [] {
      NamedCovers(rs[1..], n);
      assert rs == [rs[0]] + rs[1..];
      SpanCovers(rs[0], n);
    }
  }

  /** The packets of a proper list of 24-bit ranges are such lists too. */
  lemma CutProper(rs: seq<Range>, maxSize: int, c: seq<Range>)
    requires Reportable(rs) && c in Cut(rs, [], maxSize)
    ensures Proper(c) && forall r <- c :: RangeFits(r)
  {
    CutConserves(rs, [], maxSize);
    assert [] + rs == rs;
    forall r | r in c
      ensures r in rs
    {
      InConcat(Cut(rs, [], maxSize), c, r);
    }
  }
}
