/** Splitting large messages and putting them together again
    (_reliability.py:168-177, 701-747, 798-835). */
module Splitting {
  import opened Types

  function Join(parts: seq<Bytes>): Bytes {
    if parts == [] then [] else Join(parts[..|parts| - 1]) + parts[|parts| - 1]
  }

  /** Full pieces of k bytes and a last one of at most k. */
  function Pieces(data: Bytes, k: nat): (r: seq<Bytes>)
    requires k > 0
  {
    if data == [] then []
    else
      LastStart(|data|, k);
      Pieces(data[..LastPiece(|data|, k)], k) + [data[LastPiece(|data|, k)..]]
  }

  /** Where the last piece of n bytes begins. */
  function LastPiece(n: nat, k: nat): int
    requires n > 0 && k > 0
  {
    (n - 1) / k * k
  }

  lemma LastStart(n: nat, k: nat)
    requires n > 0 && k > 0
    ensures 0 <= LastPiece(n, k) < n <= LastPiece(n, k) + k
  {
    assert n - 1 == LastPiece(n, k) + (n - 1) % k;
  }

  lemma LastIs(j: nat, n: nat, k: nat)
    requires k > 0 && j * k < n <= j * k + k
    ensures LastPiece(n, k) == j * k
  {
    assert n - 1 == (n - 1) / k * k + (n - 1) % k;
    Quotients((n - 1) / k, j, k);
    Quotients(j, (n - 1) / k, k);
  }

  lemma Quotients(a: int, b: int, k: nat)
    requires k > 0 && a * k < b * k + k
    ensures a <= b
  {
    if a > b {
      NextMultiple(a, b, k);
    }
  }

  lemma NextMultiple(a: int, b: int, k: nat)
    requires a > b
    ensures a * k >= b * k + k
  {
    var d: nat := a - b - 1;
    assert a * k == b * k + k + d * k;
  }

  /** The pieces join to the payload, none is empty and none too long. */
  lemma {:induction false} PiecesJoin(data: Bytes, k: nat)
    requires k > 0
    ensures Join(Pieces(data, k)) == data
    ensures forall i :: 0 <= i < |Pieces(data, k)| ==> 0 < |Pieces(data, k)[i]| <= k
    ensures data != [] ==> |Pieces(data, k)| == (|data| - 1) / k + 1
    ensures |Pieces(data, k)| <= |data|
    decreases |data|
  {
    if data != [] {
      var m := LastPiece(|data|, k);
      LastStart(|data|, k);
      PiecesJoin(data[..m], k);
      assert data[..m] + data[m..] == data;
      Append(Pieces(data[..m], k), data[m..]);
      CountBefore(|data|, k);
    }
  }

  lemma Append(parts: seq<Bytes>, last: Bytes)
    ensures Join(parts + [last]) == Join(parts) + last
  {
    assert (parts + [last])[..|parts|] == parts;
  }

  /** The pieces before the last one are one fewer. */
  lemma CountBefore(n: nat, k: nat)
    requires n > 0 && k > 0
    ensures var m := LastPiece(n, k); if m > 0 then (m - 1) / k + 2 == (n - 1) / k + 1 else (n - 1) / k == 0
  {
    LastStart(n, k);
    if LastPiece(n, k) > 0 {
      FullBefore((n - 1) / k, LastPiece(n, k), k);
    }
  }

  lemma FullBefore(j: nat, m: nat, k: nat)
    requires k > 0 && j > 0 && m == j * k
    ensures (m - 1) / k + 1 == j
  {
    assert m - 1 == (m - 1) / k * k + (m - 1) % k;
    assert (j - 1) * k == j * k - k;
    Quotients((m - 1) / k, j - 1, k);
    Quotients(j - 1, (m - 1) / k, k);
  }

  /** The fragmenting loop of `_split_and_queue`. */
  method Fragments(data: Bytes, maxPayload: nat) returns (fragments: seq<Bytes>)
    requires maxPayload > 0
    ensures fragments == Pieces(data, maxPayload)
  {
    fragments := [];
    var offset := 0;
    while offset < |data|
      invariant offset == |fragments| * maxPayload
      invariant fragments == Pieces(data[..Min(offset, |data|)], maxPayload)
      decreases |data| - offset
    {
      var end := Min(offset + maxPayload, |data|);
      LastIs(|fragments|, end, maxPayload);
      assert data[..end][..offset] == data[..offset] && data[..end][offset..] == data[offset..end];
      fragments := fragments + [data[offset..end]];
      offset := offset + maxPayload;
    }
    assert data[..|data|] == data;
  }

  /** Fragments received so far of one split message. */
  datatype Tracker = Tracker(total: int, received: map<int, Bytes>, lastUpdate: real)

  function Live(ts: map<int, Tracker>, now: real, timeout: real): map<int, Tracker> {
    map k | k in ts && now - ts[k].lastUpdate <= timeout :: ts[k]
  }

  predicate Oldest(ts: map<int, Tracker>, k: int) {
    k in ts && forall j <- ts :: ts[k].lastUpdate <= ts[j].lastUpdate
  }

  /** Trackers left when a new one is about to start; victim goes at the limit. */
  function Evicted(ts: map<int, Tracker>, now: real, timeout: real, victim: int): map<int, Tracker> {
    var live := Live(ts, now, timeout);
    if |live| >= MAX_SPLIT_TRACKERS then live - {victim} else live
  }

  datatype Fragment = Fragment(id: int, count: int, index: int, data: Bytes)

  /** The tracker a fragment meets: the running one, or a new one after evictions. */
  function Opened(ts: map<int, Tracker>, f: Fragment, now: real, timeout: real, victim: int): (r: map<int, Tracker>)
    ensures f.id in r
  {
    if f.id in ts then ts
    else Evicted(ts, now, timeout, victim)[f.id := Tracker(f.count, map[], now)]
  }

  predicate AllPresent(t: Tracker) {
    forall i | 0 <= i < t.total :: i in t.received
  }

  /** 0 .. n-1 in order. */
  function Parts(received: map<int, Bytes>, n: nat): seq<Bytes>
    requires forall i | 0 <= i < n :: i in received
  {
    seq(n, i requires 0 <= i < n => received[i])
  }

  /** A fragment joins its running tracker; the payload when that completes it. */
  function Extend(ts: map<int, Tracker>, f: Fragment, now: real): (map<int, Tracker>, Option<Bytes>)
    requires f.id in ts
  {
    var t := ts[f.id];
    if f.index >= t.total then (ts, None)
    else
      var t' := Tracker(t.total, t.received[f.index := f.data], now);
      if |t'.received| < t'.total || !AllPresent(t') || t'.total < 0 then (ts[f.id := t'], None)
      else (ts - {f.id}, Some(Join(Parts(t'.received, t'.total))))
  }

  /** `_reassemble_split`: the trackers afterwards, and the payload when the
      fragment completed it. */
  function Reassemble(ts: map<int, Tracker>, f: Fragment, now: real, timeout: real, victim: int):
    (map<int, Tracker>, Option<Bytes>)
  {
    if f.count > MAX_SPLIT_PACKET_COUNT then (ts, None)
    else Extend(Opened(ts, f, now, timeout, victim), f, now)
  }

  /** The choice of victim matters only at the tracker limit. */
  ghost predicate VictimOk(ts: map<int, Tracker>, f: Fragment, now: real, timeout: real, victim: int) {
    f.count <= MAX_SPLIT_PACKET_COUNT && f.id !in ts && |Live(ts, now, timeout)| >= MAX_SPLIT_TRACKERS
    ==> Oldest(Live(ts, now, timeout), victim)
  }

  // ---------- any schedule reassembles ----------

  datatype Arrival = Arrival(f: Fragment, now: real, victim: int)

  /** A fragment of the message with this id and these pieces. */
  predicate Genuine(f: Fragment, id: int, pieces: seq<Bytes>) {
    f.id == id && f.count == |pieces| && 0 <= f.index < |pieces| && f.data == pieces[f.index]
  }

  /** The tracker of id survives the start of another message. */
  predicate Spares(ts: map<int, Tracker>, a: Arrival, timeout: real, id: int) {
    id in ts && a.f.id !in ts && a.f.count <= MAX_SPLIT_PACKET_COUNT ==>
      id in Evicted(ts, a.now, timeout, a.victim)
  }

  /** The tracker of id holds exactly the pieces with index in s. */
  ghost predicate Holding(ts: map<int, Tracker>, id: int, pieces: seq<Bytes>, s: set<int>) {
    if s == {} then id !in ts
    else id in ts && ts[id].total == |pieces| && ts[id].received.Keys == s
         && forall i <- s :: 0 <= i < |pieces| && ts[id].received[i] == pieces[i]
  }

  /** {0, ..., n-1}. */
  ghost function Indices(n: nat): (s: set<int>)
    ensures |s| == n && forall i :: i in s <==> 0 <= i < n
  {
    if n == 0 then {} else Indices(n - 1) + {n - 1}
  }

  lemma SubsetFull(s: set<int>, n: nat)
    requires s <= Indices(n)
    ensures |s| == n <==> s == Indices(n)
    ensures |s| <= n
  {
    var rest := Indices(n) - s;
    assert Indices(n) == s + rest;
    if |s| == n {
      assert rest == {};
    }
  }

  /** Pieces received, by index. */
  predicate Matches(received: map<int, Bytes>, pieces: seq<Bytes>, s: set<int>) {
    received.Keys == s && forall i <- s :: 0 <= i < |pieces| && received[i] == pieces[i]
  }

  lemma MatchesFull(received: map<int, Bytes>, pieces: seq<Bytes>, s: set<int>)
    requires Matches(received, pieces, s)
    ensures |received| < |pieces| <==> s != Indices(|pieces|)
    ensures s == Indices(|pieces|) ==>
      (forall i | 0 <= i < |pieces| :: i in received) && Parts(received, |pieces|) == pieces
  {
    assert |received| == |received.Keys|;
    SubsetFull(s, |pieces|);
  }

  lemma StartedHolds(ts: map<int, Tracker>, a: Arrival, timeout: real, id: int, pieces: seq<Bytes>, s: set<int>)
    requires Holding(ts, id, pieces, s) && a.f.id == id && a.f.count == |pieces|
    ensures var t := Opened(ts, a.f, a.now, timeout, a.victim)[id];
      t.total == |pieces| && Matches(t.received, pieces, s)
  {
  }

  /** A genuine fragment joins its tracker; it completes the message exactly
      when it was the last one missing, and then yields the payload. */
  lemma GenuineStep(ts: map<int, Tracker>, a: Arrival, timeout: real, id: int, pieces: seq<Bytes>, s: set<int>)
    requires Holding(ts, id, pieces, s) && s < Indices(|pieces|) && Genuine(a.f, id, pieces)
    requires |pieces| <= MAX_SPLIT_PACKET_COUNT
    ensures var (ts', out) := Reassemble(ts, a.f, a.now, timeout, a.victim);
      if s + {a.f.index} == Indices(|pieces|) then id !in ts' && out == Some(Join(pieces))
      else out == None && Holding(ts', id, pieces, s + {a.f.index})
  {
    StartedHolds(ts, a, timeout, id, pieces, s);
    JoinTracker(Opened(ts, a.f, a.now, timeout, a.victim), a, id, pieces, s);
  }

  lemma JoinLast(ts: map<int, Tracker>, f: Fragment, now: real, received: map<int, Bytes>)
    requires f.id in ts && f.index < ts[f.id].total && received == ts[f.id].received[f.index := f.data]
    requires |received| >= ts[f.id].total && AllPresent(Tracker(ts[f.id].total, received, now)) && ts[f.id].total >= 0
    ensures Extend(ts, f, now) == (ts - {f.id}, Some(Join(Parts(received, ts[f.id].total))))
  {
  }

  lemma JoinEarly(ts: map<int, Tracker>, f: Fragment, now: real, received: map<int, Bytes>)
    requires f.id in ts && f.index < ts[f.id].total && received == ts[f.id].received[f.index := f.data]
    requires |received| < ts[f.id].total
    ensures Extend(ts, f, now) == (ts[f.id := Tracker(ts[f.id].total, received, now)], None)
  {
  }

  /** The fragment meets a tracker that already runs. */
  lemma JoinTracker(ts: map<int, Tracker>, a: Arrival, id: int, pieces: seq<Bytes>, s: set<int>)
    requires Genuine(a.f, id, pieces) && |pieces| <= MAX_SPLIT_PACKET_COUNT
    requires id in ts && ts[id].total == |pieces| && Matches(ts[id].received, pieces, s)
    ensures var (ts', out) := Extend(ts, a.f, a.now);
      if s + {a.f.index} == Indices(|pieces|) then id !in ts' && out == Some(Join(pieces))
      else out == None && Holding(ts', id, pieces, s + {a.f.index})
  {
    var received := ts[id].received[a.f.index := a.f.data];
    assert Matches(received, pieces, s + {a.f.index});
    MatchesFull(received, pieces, s + {a.f.index});
    if s + {a.f.index} == Indices(|pieces|) {
      JoinLast(ts, a.f, a.now, received);
    } else {
      JoinEarly(ts, a.f, a.now, received);
    }
  }

  lemma OtherStep(ts: map<int, Tracker>, a: Arrival, timeout: real, id: int, pieces: seq<Bytes>, s: set<int>)
    requires Holding(ts, id, pieces, s) && a.f.id != id && Spares(ts, a, timeout, id)
    ensures Holding(Reassemble(ts, a.f, a.now, timeout, a.victim).0, id, pieces, s)
  {
  }

  function Run(ts: map<int, Tracker>, arrivals: seq<Arrival>, timeout: real): map<int, Tracker>
    decreases |arrivals|
  {
    if arrivals == [] then ts
    else Run(Reassemble(ts, arrivals[0].f, arrivals[0].now, timeout, arrivals[0].victim).0, arrivals[1..], timeout)
  }

  /** What the arrivals for id complete, in order. */
  function Completed(ts: map<int, Tracker>, arrivals: seq<Arrival>, timeout: real, id: int): seq<Bytes>
    decreases |arrivals|
  {
    if arrivals == [] then []
    else
      var (ts', out) := Reassemble(ts, arrivals[0].f, arrivals[0].now, timeout, arrivals[0].victim);
      (if arrivals[0].f.id == id && out.Some? then [out.value] else [])
      + Completed(ts', arrivals[1..], timeout, id)
  }

  /** Every arrival is genuine for id or belongs to another id and spares it. */
  ghost predicate Clean(ts: map<int, Tracker>, arrivals: seq<Arrival>, timeout: real, id: int, pieces: seq<Bytes>)
    decreases |arrivals|
  {
    arrivals == []
    || ((if arrivals[0].f.id == id then Genuine(arrivals[0].f, id, pieces) else Spares(ts, arrivals[0], timeout, id))
        && Clean(Reassemble(ts, arrivals[0].f, arrivals[0].now, timeout, arrivals[0].victim).0, arrivals[1..], timeout, id, pieces))
  }

  function Arrived(arrivals: seq<Arrival>, id: int): set<int> {
    set a | a in arrivals && a.f.id == id :: a.f.index
  }

  lemma ArrivedCons(arrivals: seq<Arrival>, id: int)
    requires arrivals != []
    ensures Arrived(arrivals, id)
            == (if arrivals[0].f.id == id then {arrivals[0].f.index} else {}) + Arrived(arrivals[1..], id)
  {
    assert arrivals == [arrivals[0]] + arrivals[1..];
  }

  /** While a fragment is missing the tracker holds what has come so far. */
  lemma {:induction false} RunHolds(ts: map<int, Tracker>, arrivals: seq<Arrival>, timeout: real, id: int,
                                    pieces: seq<Bytes>, s: set<int>)
    requires Holding(ts, id, pieces, s) && s <= Indices(|pieces|) && |pieces| <= MAX_SPLIT_PACKET_COUNT
    requires Clean(ts, arrivals, timeout, id, pieces)
    requires s + Arrived(arrivals, id) != Indices(|pieces|)
    ensures Holding(Run(ts, arrivals, timeout), id, pieces, s + Arrived(arrivals, id))
    decreases |arrivals|
  {
    if arrivals == [] {
      assert s + Arrived(arrivals, id) == s;
    } else {
      var a := arrivals[0];
      var ts' := Reassemble(ts, a.f, a.now, timeout, a.victim).0;
      LaterWithin(ts, arrivals, timeout, id, pieces);
      StillMissing(arrivals, id, s, |pieces|);
      OneWaits(ts, a, timeout, id, pieces, s);
      RunHolds(ts', arrivals[1..], timeout, id, pieces, if a.f.id == id then s + {a.f.index} else s);
    }
  }

  /** While a fragment is missing nothing completes, whatever the order, the
      duplicates and the messages in between. */
  lemma {:induction false} IncompleteWaits(ts: map<int, Tracker>, arrivals: seq<Arrival>, timeout: real, id: int,
                                           pieces: seq<Bytes>, s: set<int>)
    requires Holding(ts, id, pieces, s) && s <= Indices(|pieces|) && |pieces| <= MAX_SPLIT_PACKET_COUNT
    requires Clean(ts, arrivals, timeout, id, pieces)
    requires s + Arrived(arrivals, id) != Indices(|pieces|)
    ensures Completed(ts, arrivals, timeout, id) == []
    decreases |arrivals|
  {
    if arrivals != [] {
      var a := arrivals[0];
      var ts' := Reassemble(ts, a.f, a.now, timeout, a.victim).0;
      LaterWithin(ts, arrivals, timeout, id, pieces);
      StillMissing(arrivals, id, s, |pieces|);
      OneWaits(ts, a, timeout, id, pieces, s);
      IncompleteWaits(ts', arrivals[1..], timeout, id, pieces, if a.f.id == id then s + {a.f.index} else s);
    }
  }

  lemma OneWaits(ts: map<int, Tracker>, a: Arrival, timeout: real, id: int, pieces: seq<Bytes>, s: set<int>)
    requires Holding(ts, id, pieces, s) && s < Indices(|pieces|) && |pieces| <= MAX_SPLIT_PACKET_COUNT
    requires if a.f.id == id then Genuine(a.f, id, pieces) else Spares(ts, a, timeout, id)
    requires a.f.id == id ==> s + {a.f.index} != Indices(|pieces|)
    ensures var (ts', out) := Reassemble(ts, a.f, a.now, timeout, a.victim);
      Holding(ts', id, pieces, if a.f.id == id then s + {a.f.index} else s) && (a.f.id == id ==> out == None)
  {
    if a.f.id == id {
      GenuineStep(ts, a, timeout, id, pieces, s);
    } else {
      OtherStep(ts, a, timeout, id, pieces, s);
    }
  }

  lemma StillMissing(arrivals: seq<Arrival>, id: int, s: set<int>, n: nat)
    requires arrivals != [] && s <= Indices(n) && Arrived(arrivals, id) <= Indices(n)
    requires s + Arrived(arrivals, id) != Indices(n)
    ensures var a := arrivals[0];
      var s' := if a.f.id == id then s + {a.f.index} else s;
      s < Indices(n) && s' < Indices(n) && s' + Arrived(arrivals[1..], id) == s + Arrived(arrivals, id)
  {
    ArrivedCons(arrivals, id);
  }

  lemma {:induction false} LaterWithin(ts: map<int, Tracker>, arrivals: seq<Arrival>, timeout: real, id: int, pieces: seq<Bytes>)
    requires Clean(ts, arrivals, timeout, id, pieces)
    ensures Arrived(arrivals, id) <= Indices(|pieces|)
    decreases |arrivals|
  {
    if arrivals != [] {
      ArrivedCons(arrivals, id);
      LaterWithin(Reassemble(ts, arrivals[0].f, arrivals[0].now, timeout, arrivals[0].victim).0,
                  arrivals[1..], timeout, id, pieces);
    }
  }

  /** The last missing fragment completes the message with exactly its bytes;
      nothing completed before. */
  lemma AnyScheduleReassembles(ts: map<int, Tracker>, before: seq<Arrival>, last: Arrival, timeout: real, id: int,
                               pieces: seq<Bytes>)
    requires id !in ts && 0 < |pieces| <= MAX_SPLIT_PACKET_COUNT
    requires Clean(ts, before, timeout, id, pieces) && Genuine(last.f, id, pieces)
    requires Arrived(before, id) != Indices(|pieces|)
    requires Arrived(before, id) + {last.f.index} == Indices(|pieces|)
    ensures Completed(ts, before, timeout, id) == []
    ensures Reassemble(Run(ts, before, timeout), last.f, last.now, timeout, last.victim).1 == Some(Join(pieces))
    ensures id !in Reassemble(Run(ts, before, timeout), last.f, last.now, timeout, last.victim).0
  {
    assert {} + Arrived(before, id) == Arrived(before, id);
    IncompleteWaits(ts, before, timeout, id, pieces, {});
    RunHolds(ts, before, timeout, id, pieces, {});
    GenuineStep(Run(ts, before, timeout), last, timeout, id, pieces, Arrived(before, id));
  }

  /** The 16-bit identifier is all that tells messages apart: after 65536 split
      messages a fragment of a later one completes the tracker an earlier one
      left behind, with bytes of both. */
  lemma ReusedIdentifierMixes(id: int, early: Bytes, late: Bytes, now: real, timeout: real, v: int)
    requires timeout >= 0.0
    ensures var (ts, out) := Reassemble(map[], Fragment(id, 2, 0, early), now, timeout, v);
      out == None && Reassemble(ts, Fragment(id, 2, 1, late), now, timeout, v) == (map[], Some(early + late))
  {
    FirstOfTwo(id, early, now, timeout, v);
    SecondOfTwo(id, early, late, now, timeout, v);
  }

  lemma FirstOfTwo(id: int, early: Bytes, now: real, timeout: real, v: int)
    requires timeout >= 0.0
    ensures Reassemble(map[], Fragment(id, 2, 0, early), now, timeout, v)
            == (map[id := Tracker(2, map[0 := early], now)], None)
  {
    var begun := map[id := Tracker(2, map[], now)];
    assert Live(map[], now, timeout) == map[];
    assert Opened(map[], Fragment(id, 2, 0, early), now, timeout, v) == begun;
    assert map[][0 := early] == map[0 := early] && |map[0 := early]| == 1;
    JoinEarly(begun, Fragment(id, 2, 0, early), now, map[0 := early]);
    assert begun[id := Tracker(2, map[0 := early], now)] == map[id := Tracker(2, map[0 := early], now)];
  }

  lemma SecondOfTwo(id: int, early: Bytes, late: Bytes, now: real, timeout: real, v: int)
    ensures Reassemble(map[id := Tracker(2, map[0 := early], now)], Fragment(id, 2, 1, late), now, timeout, v)
            == (map[], Some(early + late))
  {
    var one := map[id := Tracker(2, map[0 := early], now)];
    assert one - {id} == map[];
    LastOfTwo(one, id, early, late, now);
  }

  lemma LastOfTwo(ts: map<int, Tracker>, id: int, early: Bytes, late: Bytes, now: real)
    requires id in ts && ts[id] == Tracker(2, map[0 := early], now)
    ensures Extend(ts, Fragment(id, 2, 1, late), now) == (ts - {id}, Some(early + late))
  {
    var both := map[0 := early, 1 := late];
    assert map[0 := early][1 := late] == both;
    TwoParts(both, early, late);
    JoinLast(ts, Fragment(id, 2, 1, late), now, both);
  }

  lemma TwoParts(received: map<int, Bytes>, a: Bytes, b: Bytes)
    requires received == map[0 := a, 1 := b]
    ensures |received| == 2 && Parts(received, 2) == [a, b] && Join(Parts(received, 2)) == a + b
  {
    assert received.Keys == {0, 1} && |received| == |received.Keys|;
    assert Parts(received, 2) == [a, b];
    Append([a], b);
    Append([], a);
    assert [] + [a] == [a] && [a] + [b] == [a, b];
  }
}
