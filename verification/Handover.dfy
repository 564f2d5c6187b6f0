/** Which messages are handed on: every one whose frames have all been read,
    unless some fragment of it was given up. */
module Handover {
  import opened Types
  import opened Tags
  import opened Windows
  import opened Splitting
  import opened ReceiverSpec
  import opened ReceiverInv
  import opened DeliveryInv
  import SenderQueue
  import SenderInv
  import SenderNet
  import Congestion

  /** The running tracker of message mid holds its frame fid. */
  ghost predicate Held(r: Receiver, msgs: Messages, mid: nat, fid: nat)
    requires mid < |msgs|
  {
    var k := msgs[mid].splitId;
    k in r.trackers && k in r.owners && r.owners[k] == mid && fid - msgs[mid].first in r.trackers[k].received
  }

  ghost predicate IsSplit(msgs: Messages, mid: nat) {
    mid < |msgs| && |msgs[mid].pieces| > 1
  }

  /** A frame of the message that has been read. */
  ghost predicate Read(r: Receiver, msgs: Messages, mid: nat, fid: nat)
    requires mid < |msgs|
  {
    Owns(msgs[mid], fid) && Processed(r, fid)
  }

  ghost predicate Missing(tr: Tracker) {
    tr.received.Keys != {} && exists i :: 0 <= i < tr.total && i !in tr.received
  }

  /** What was read of a split message is held by its tracker until the message
      is handed on or given up; one given up lacks a frame for good. */
  ghost predicate SplitInv(r: Receiver, msgs: Messages) {
    (forall mid: nat, fid: nat ::
       IsSplit(msgs, mid) && mid !in r.discarded && !SenderQueue.Stands(r.handed, mid) && Read(r, msgs, mid, fid) ==>
         Held(r, msgs, mid, fid))
    && (forall mid <- r.discarded ::
          IsSplit(msgs, mid) && !SenderQueue.Stands(r.handed, mid) && Spoilt(r, msgs, mid))
    && (forall k <- r.trackers :: k in r.owners && Missing(r.trackers[k]) && !SenderQueue.Stands(r.handed, r.owners[k]))
  }

  ghost predicate Spoilt(r: Receiver, msgs: Messages, mid: nat)
    requires mid < |msgs|
  {
    exists fid: nat :: Read(r, msgs, mid, fid) && !Held(r, msgs, mid, fid)
  }

  /** Whole messages are handed on when read. */
  ghost predicate WholeInv(r: Receiver) {
    forall i :: 0 <= i < |r.processed| && r.processed[i].f.splitCount <= 0 ==>
      SenderQueue.Stands(r.handed, r.processed[i].mid)
  }

  ghost predicate HandInv(r: Receiver, msgs: Messages) {
    SplitInv(r, msgs) && WholeInv(r)
  }

  /** A split message neither handed on nor given up lacks a frame. */
  lemma StillLacks(r: Receiver, msgs: Messages, mid: nat)
    requires TracksInv(r, msgs) && SplitInv(r, msgs) && IsSplit(msgs, mid)
    requires mid !in r.discarded && !SenderQueue.Stands(r.handed, mid)
    ensures !AllProcessed(r, msgs[mid])
  {
    var m := msgs[mid];
    if Held(r, msgs, mid, m.first) {
      var tr := r.trackers[m.splitId];
      assert TrackerOk(r, msgs, m.splitId);
      var i :| 0 <= i < tr.total && i !in tr.received;
      assert !Held(r, msgs, mid, m.first + i);
      assert !Read(r, msgs, mid, m.first + i);
      assert Owns(m, m.first + i);
    } else {
      assert !Read(r, msgs, mid, m.first);
      assert Owns(m, m.first);
    }
  }

  lemma WholeHanded(r: Receiver, msgs: Messages, nums: seq<nat>, mid: nat)
    requires World(msgs, nums) && ProcInv(r, msgs, nums) && WholeInv(r)
    requires mid < |msgs| && |msgs[mid].pieces| == 1 && AllProcessed(r, msgs[mid])
    ensures SenderQueue.Stands(r.handed, mid)
  {
    var m := msgs[mid];
    assert Owns(m, m.first);
    var i :| 0 <= i < |r.processed| && r.processed[i].fid == m.first;
    assert Known(msgs, nums, r.processed[i]);
    assert Owns(msgs[r.processed[i].mid], m.first);
  }

  /** A message all of whose frames have been read has been handed on if and
      only if nothing of it was given up. */
  lemma HandedExactly(r: Receiver, msgs: Messages, nums: seq<nat>, mid: nat)
    requires World(msgs, nums) && ProcInv(r, msgs, nums) && TracksInv(r, msgs) && HandInv(r, msgs)
    requires mid < |msgs| && AllProcessed(r, msgs[mid])
    ensures SenderQueue.Stands(r.handed, mid) <==> mid !in r.discarded
  {
    assert SenderInv.WellMade(msgs[mid]);
    if |msgs[mid].pieces| == 1 {
      WholeHanded(r, msgs, nums, mid);
    } else if mid !in r.discarded && !SenderQueue.Stands(r.handed, mid) {
      StillLacks(r, msgs, mid);
    }
  }

  // ---------- giving up ----------

  /** Trackers may go, and their messages with them; nothing else changes. */
  ghost predicate GivesUp(r: Receiver, r': Receiver) {
    r'.processed == r.processed && r'.handed == r.handed
    && (forall k <- r'.trackers :: k in r.trackers && r'.trackers[k] == r.trackers[k]
                                   && k in r.owners && k in r'.owners && r'.owners[k] == r.owners[k])
    && r'.discarded == r.discarded + OwnersOf(r, r.trackers.Keys - r'.trackers.Keys)
  }

  lemma HeldStays(r: Receiver, r': Receiver, msgs: Messages, mid: nat, fid: nat)
    requires GivesUp(r, r') && TracksInv(r, msgs) && mid < |msgs|
    ensures Held(r', msgs, mid, fid) ==> Held(r, msgs, mid, fid)
    ensures Held(r, msgs, mid, fid) && mid !in r'.discarded ==> Held(r', msgs, mid, fid)
  {
    var k := msgs[mid].splitId;
    if Held(r, msgs, mid, fid) && k !in r'.trackers {
      assert k in r.trackers.Keys - r'.trackers.Keys && r.owners[k] in r'.discarded;
    }
  }

  lemma GivenUpSpoilt(r: Receiver, r': Receiver, msgs: Messages, mid: nat)
    requires GivesUp(r, r') && TracksInv(r, msgs) && SplitInv(r, msgs) && mid in r'.discarded
    ensures IsSplit(msgs, mid) && !SenderQueue.Stands(r'.handed, mid) && Spoilt(r', msgs, mid)
  {
    if mid in r.discarded {
      var fid: nat :| Read(r, msgs, mid, fid) && !Held(r, msgs, mid, fid);
      HeldStays(r, r', msgs, mid, fid);
      assert Read(r', msgs, mid, fid);
    } else {
      var k :| k in r.trackers.Keys - r'.trackers.Keys && k in r.owners && r.owners[k] == mid;
      assert TrackerOk(r, msgs, k) && Missing(r.trackers[k]);
      var i := Pick(r.trackers[k].received.Keys);
      var fid: nat := msgs[mid].first + i;
      assert PieceHeld(msgs[mid], i, r.trackers[k].received[i]);
      assert Read(r', msgs, mid, fid) && !Held(r', msgs, mid, fid);
    }
  }

  lemma GivesUpKeeps(r: Receiver, r': Receiver, msgs: Messages)
    requires GivesUp(r, r') && TracksInv(r, msgs) && SplitInv(r, msgs)
    ensures SplitInv(r', msgs) && TracksInv(r', msgs)
  {
    forall mid: nat, fid: nat | IsSplit(msgs, mid) && mid !in r'.discarded && !SenderQueue.Stands(r'.handed, mid)
                                && Read(r', msgs, mid, fid)
      ensures Held(r', msgs, mid, fid)
    {
      assert Read(r, msgs, mid, fid);
      HeldStays(r, r', msgs, mid, fid);
    }
    forall mid | mid in r'.discarded
      ensures IsSplit(msgs, mid) && !SenderQueue.Stands(r'.handed, mid) && Spoilt(r', msgs, mid)
    {
      GivenUpSpoilt(r, r', msgs, mid);
    }
    forall k | k in r'.trackers
      ensures TrackerOk(r', msgs, k)
    {
      assert TrackerOk(r, msgs, k);
    }
  }
  // ---------- one more fragment ----------

  /** Fragment t, read for the first time, in a receiver that has not handed its message on. */
  ghost predicate Fragmentary(a: Receiver, msgs: Messages, nums: seq<nat>, t: TFrame) {
    World(msgs, nums) && Reads(msgs, t) && t.f.splitCount > 0 && !Processed(a, t.fid) && !SenderQueue.Stands(a.handed, t.mid)
    && (t.f.splitId in a.trackers ==> t.f.splitId in a.owners && a.owners[t.f.splitId] == t.mid)
  }

  /** The running trackers of other messages have the same owners. */
  predicate SameOwners(a: Receiver, b: Receiver, id: int) {
    forall k <- a.trackers :: k != id ==> k in a.owners && k in b.owners && b.owners[k] == a.owners[k]
  }

  function Before(a: Receiver, id: int): map<int, Bytes> {
    if id in a.trackers then a.trackers[id].received else map[]
  }

  /** The fragment joins its tracker, which still lacks another. */
  ghost predicate Joins(a: Receiver, b: Receiver, msgs: Messages, t: TFrame, tr: Tracker)
    requires t.mid < |msgs|
  {
    var id := t.f.splitId;
    b.processed == a.processed + [t] && b.handed == a.handed && b.discarded == a.discarded
    && b.trackers == a.trackers[id := tr] && SameOwners(a, b, id) && id in b.owners && b.owners[id] == t.mid
    && tr.received == Before(a, id)[t.f.splitIndex := t.f.data] && Missing(tr)
  }

  lemma OneMessage(msgs: Messages, nums: seq<nat>, t: TFrame, mid: nat)
    requires World(msgs, nums) && Reads(msgs, t) && mid < |msgs| && Owns(msgs[mid], t.fid)
    ensures mid == t.mid
  {
    assert Owns(msgs[t.mid], t.fid);
  }

  lemma JoinsHeld(a: Receiver, b: Receiver, msgs: Messages, nums: seq<nat>, t: TFrame, tr: Tracker, mid: nat, fid: nat)
    requires Fragmentary(a, msgs, nums, t) && Joins(a, b, msgs, t, tr) && mid < |msgs| && Owns(msgs[mid], fid)
    ensures fid != t.fid ==> (Held(b, msgs, mid, fid) <==> Held(a, msgs, mid, fid))
    ensures fid == t.fid ==> Held(b, msgs, mid, fid)
  {
    if fid == t.fid {
      OneMessage(msgs, nums, t, mid);
    }
  }

  lemma ReadOne(a: Receiver, b: Receiver, t: TFrame, fid: nat)
    requires b.processed == a.processed + [t]
    ensures Processed(b, fid) <==> Processed(a, fid) || fid == t.fid
  {
    if Processed(a, fid) {
      var i :| 0 <= i < |a.processed| && a.processed[i].fid == fid;
      assert b.processed[i].fid == fid;
    }
    assert b.processed[|a.processed|] == t;
    if Processed(b, fid) && fid != t.fid {
      var i :| 0 <= i < |b.processed| && b.processed[i].fid == fid;
      assert a.processed[i].fid == fid;
    }
  }

  lemma JoinsKeeps(a: Receiver, b: Receiver, msgs: Messages, nums: seq<nat>, t: TFrame, tr: Tracker)
    requires Fragmentary(a, msgs, nums, t) && SplitInv(a, msgs) && Joins(a, b, msgs, t, tr)
    ensures SplitInv(b, msgs)
  {
    forall mid: nat, fid: nat | IsSplit(msgs, mid) && mid !in b.discarded && !SenderQueue.Stands(b.handed, mid)
                                && Read(b, msgs, mid, fid)
      ensures Held(b, msgs, mid, fid)
    {
      ReadOne(a, b, t, fid);
      JoinsHeld(a, b, msgs, nums, t, tr, mid, fid);
      assert fid != t.fid ==> Read(a, msgs, mid, fid);
    }
    forall mid | mid in b.discarded
      ensures IsSplit(msgs, mid) && !SenderQueue.Stands(b.handed, mid) && Spoilt(b, msgs, mid)
    {
      var fid: nat :| Read(a, msgs, mid, fid) && !Held(a, msgs, mid, fid);
      ReadOne(a, b, t, fid);
      JoinsHeld(a, b, msgs, nums, t, tr, mid, fid);
      assert Read(b, msgs, mid, fid) && !Held(b, msgs, mid, fid);
    }
  }

  /** The fragment was the last one: the message is handed on. */
  ghost predicate Completes(a: Receiver, b: Receiver, msgs: Messages, t: TFrame)
    requires t.mid < |msgs|
  {
    var id := t.f.splitId;
    b.processed == a.processed + [t] && b.handed == a.handed + [t.mid] && b.discarded == a.discarded
    && id in a.trackers && b.trackers == a.trackers - {id} && SameOwners(a, b, id)
    && forall i :: 0 <= i < |msgs[t.mid].pieces| && i != t.f.splitIndex ==> i in a.trackers[id].received
  }

  lemma CompletesSpares(a: Receiver, b: Receiver, msgs: Messages, nums: seq<nat>, t: TFrame, mid: nat)
    requires Fragmentary(a, msgs, nums, t) && SplitInv(a, msgs) && Completes(a, b, msgs, t) && mid in a.discarded
    ensures IsSplit(msgs, mid) && mid != t.mid && Spoilt(b, msgs, mid)
  {
    var fid: nat :| Read(a, msgs, mid, fid) && !Held(a, msgs, mid, fid);
    ReadOne(a, b, t, fid);
    assert Owns(msgs[mid], fid);
    assert Read(b, msgs, mid, fid) && !Held(b, msgs, mid, fid);
  }

  lemma CompletesKeeps(a: Receiver, b: Receiver, msgs: Messages, nums: seq<nat>, t: TFrame)
    requires Fragmentary(a, msgs, nums, t) && SplitInv(a, msgs) && TracksInv(a, msgs) && Completes(a, b, msgs, t)
    ensures SplitInv(b, msgs)
  {
    forall mid: nat, fid: nat | IsSplit(msgs, mid) && mid !in b.discarded && !SenderQueue.Stands(b.handed, mid)
                                && Read(b, msgs, mid, fid)
      ensures Held(b, msgs, mid, fid)
    {
      ReadOne(a, b, t, fid);
      StandsAppend(a.handed, t.mid, mid);
      if fid == t.fid {
        OneMessage(msgs, nums, t, mid);
      }
      assert Read(a, msgs, mid, fid) && Held(a, msgs, mid, fid);
    }
    forall mid | mid in b.discarded
      ensures IsSplit(msgs, mid) && !SenderQueue.Stands(b.handed, mid) && Spoilt(b, msgs, mid)
    {
      CompletesSpares(a, b, msgs, nums, t, mid);
      NotAppended(a.handed, t.mid, mid);
    }
    forall k | k in b.trackers
      ensures k in b.owners && Missing(b.trackers[k]) && !SenderQueue.Stands(b.handed, b.owners[k])
    {
      assert TrackerOk(a, msgs, k);
      NotAppended(a.handed, t.mid, a.owners[k]);
    }
  }

  lemma NotAppended(handed: seq<nat>, mid: nat, other: nat)
    requires !SenderQueue.Stands(handed, other) && other != mid
    ensures !SenderQueue.Stands(handed + [mid], other)
  {
    forall i | 0 <= i < |handed + [mid]|
      ensures (handed + [mid])[i] != other
    {
      assert i < |handed| ==> handed[i] == (handed + [mid])[i];
    }
  }

  /** A message of too many fragments is never collected. */
  ghost predicate Refuses(a: Receiver, b: Receiver, t: TFrame) {
    b.processed == a.processed + [t] && b.handed == a.handed && b.discarded == a.discarded + {t.mid}
    && b.trackers == a.trackers && forall k <- a.trackers :: k in a.owners && k in b.owners && b.owners[k] == a.owners[k]
  }

  lemma RefusesKeeps(a: Receiver, b: Receiver, msgs: Messages, nums: seq<nat>, t: TFrame)
    requires World(msgs, nums) && Reads(msgs, t) && t.f.splitCount > 0 && !Processed(a, t.fid)
    requires !SenderQueue.Stands(a.handed, t.mid)
    requires SplitInv(a, msgs) && TracksInv(a, msgs) && Refuses(a, b, t)
    ensures SplitInv(b, msgs)
  {
    forall mid: nat, fid: nat | IsSplit(msgs, mid) && mid !in b.discarded && !SenderQueue.Stands(b.handed, mid)
                                && Read(b, msgs, mid, fid)
      ensures Held(b, msgs, mid, fid)
    {
      ReadOne(a, b, t, fid);
      if fid == t.fid {
        OneMessage(msgs, nums, t, mid);
      }
      assert Read(a, msgs, mid, fid) && Held(a, msgs, mid, fid);
    }
    forall mid | mid in b.discarded
      ensures IsSplit(msgs, mid) && !SenderQueue.Stands(b.handed, mid) && Spoilt(b, msgs, mid)
    {
      if mid in a.discarded {
        var fid: nat :| Read(a, msgs, mid, fid) && !Held(a, msgs, mid, fid);
        ReadOne(a, b, t, fid);
        assert Read(b, msgs, mid, fid) && !Held(b, msgs, mid, fid);
      } else {
        RefusedSpoilt(a, b, msgs, nums, t);
      }
    }
  }

  lemma RefusedSpoilt(a: Receiver, b: Receiver, msgs: Messages, nums: seq<nat>, t: TFrame)
    requires World(msgs, nums) && Reads(msgs, t) && !Processed(a, t.fid) && TracksInv(a, msgs) && Refuses(a, b, t)
    ensures Spoilt(b, msgs, t.mid)
  {
    ReadOne(a, b, t, t.fid);
    assert Owns(msgs[t.mid], t.fid);
    var k := msgs[t.mid].splitId;
    if k in a.trackers {
      assert TrackerOk(a, msgs, k);
    }
    assert Read(b, msgs, t.mid, t.fid) && !Held(b, msgs, t.mid, t.fid);
  }
  // ---------- one frame ----------

  lemma SmallerSet(a: set<int>, b: set<int>)
    requires a <= b
    ensures |a| <= |b|
  {
    assert b == a + (b - a);
  }

  /** A tracker that lacks nothing is as large as its message. */
  lemma FullSize(tr: Tracker)
    requires AllPresent(tr) && tr.total >= 0
    ensures |tr.received| >= tr.total
  {
    assert |tr.received| == |tr.received.Keys|;
    SmallerSet(Indices(tr.total), tr.received.Keys);
  }

  /** A fragment completes its tracker exactly when the tracker lacks nothing else. */
  lemma ExtendCases(o: map<int, Tracker>, f: Fragment, now: real)
    requires f.id in o && 0 <= f.index < o[f.id].total
    ensures var tr := Tracker(o[f.id].total, o[f.id].received[f.index := f.data], now);
      if Missing(tr) then Extend(o, f, now) == (o[f.id := tr], None)
      else Extend(o, f, now).0 == o - {f.id} && Extend(o, f, now).1.Some?
           && forall i :: 0 <= i < tr.total && i != f.index ==> i in o[f.id].received
  {
    var tr := Tracker(o[f.id].total, o[f.id].received[f.index := f.data], now);
    assert f.index in tr.received.Keys;
    if AllPresent(tr) {
      FullSize(tr);
      assert !Missing(tr);
    }
    if !Missing(tr) {
      forall i | 0 <= i < tr.total && i != f.index
        ensures i in o[f.id].received
      {
        assert i in tr.received;
      }
    }
  }

  /** The receiver once trackers have made room for a new one. */
  function MadeRoom(r: Receiver, t: TFrame, now: real, timeout: real, victim: int): Receiver {
    if t.f.splitId in r.trackers then r
    else
      var ts := Evicted(r.trackers, now, timeout, victim);
      r.(trackers := ts, discarded := r.discarded + OwnersOf(r, r.trackers.Keys - ts.Keys))
  }

  lemma MadeRoomGivesUp(r: Receiver, t: TFrame, now: real, timeout: real, victim: int, msgs: Messages)
    requires TracksInv(r, msgs)
    ensures GivesUp(r, MadeRoom(r, t, now, timeout, victim))
  {
    AllOwned(r, msgs);
    var ts := MadeRoom(r, t, now, timeout, victim).trackers;
    if t.f.splitId in r.trackers {
      assert r.trackers.Keys - ts.Keys == {};
    }
  }

  /** Owners and messages given up after a fragment, when a is the receiver it found. */
  ghost predicate RestOf(a: Receiver, r2: Receiver, t: TFrame) {
    var id := t.f.splitId;
    r2.processed == a.processed + [t] && r2.handed == a.handed && r2.discarded == a.discarded && SameOwners(a, r2, id)
    && (id in r2.trackers ==> id in r2.owners && r2.owners[id] == t.mid)
  }

  lemma ReassembledRest(r: Receiver, r1: Receiver, t: TFrame, now: real, timeout: real, victim: int, msgs: Messages)
    requires TracksInv(r, msgs) && r1 == r.(seen := r1.seen, processed := r.processed + [t])
    requires t.f.splitCount <= MAX_SPLIT_PACKET_COUNT && !Reassembled(r1, t, now, timeout, victim).0.mixed
    ensures RestOf(MadeRoom(r, t, now, timeout, victim), Reassembled(r1, t, now, timeout, victim).0, t)
  {
    RestDiscarded(r, r1, t, now, timeout, victim);
    RestOwners(r, r1, t, now, timeout, victim, msgs);
  }

  lemma RestDiscarded(r: Receiver, r1: Receiver, t: TFrame, now: real, timeout: real, victim: int)
    requires r1 == r.(seen := r1.seen, processed := r.processed + [t]) && t.f.splitCount <= MAX_SPLIT_PACKET_COUNT
    ensures Reassembled(r1, t, now, timeout, victim).0.discarded == MadeRoom(r, t, now, timeout, victim).discarded
  {
    GoneAre(r.trackers, t, now, timeout, victim);
  }

  lemma RestOwners(r: Receiver, r1: Receiver, t: TFrame, now: real, timeout: real, victim: int, msgs: Messages)
    requires TracksInv(r, msgs) && r1 == r.(seen := r1.seen, processed := r.processed + [t])
    requires t.f.splitCount <= MAX_SPLIT_PACKET_COUNT && !Reassembled(r1, t, now, timeout, victim).0.mixed
    ensures var id, owners := t.f.splitId, Reassembled(r1, t, now, timeout, victim).0.owners;
      SameOwners(MadeRoom(r, t, now, timeout, victim), Reassembled(r1, t, now, timeout, victim).0, id)
      && (id in Reassembled(r1, t, now, timeout, victim).0.trackers ==> id in owners && owners[id] == t.mid)
  {
    AllOwned(r, msgs);
    GoneAre(r.trackers, t, now, timeout, victim);
    var a, r2 := MadeRoom(r, t, now, timeout, victim), Reassembled(r1, t, now, timeout, victim).0;
    forall k | k in a.trackers && k != t.f.splitId
      ensures k in r.trackers && k in r2.trackers
    {
      assert k in a.trackers.Keys - {t.f.splitId};
      assert k in r2.trackers.Keys;
    }
  }

  lemma AllOwned(r: Receiver, msgs: Messages)
    requires TracksInv(r, msgs)
    ensures forall k <- r.trackers :: k in r.owners
  {
    forall k | k in r.trackers
      ensures k in r.owners
    {
      assert TrackerOk(r, msgs, k);
    }
  }

  /** The trackers that go when a fragment comes, its own apart. */
  lemma GoneAre(ts: map<int, Tracker>, t: TFrame, now: real, timeout: real, victim: int)
    requires t.f.splitCount <= MAX_SPLIT_PACKET_COUNT
    ensures var room := if t.f.splitId in ts then ts else Evicted(ts, now, timeout, victim);
      var after := Reassemble(ts, FragmentOf(t.f), now, timeout, victim).0;
      ts.Keys - after.Keys - {t.f.splitId} == ts.Keys - room.Keys
      && after.Keys - {t.f.splitId} == room.Keys - {t.f.splitId}
  {
  }

  ghost predicate Fragmented(r: Receiver, r1: Receiver, msgs: Messages, nums: seq<nat>, t: TFrame) {
    World(msgs, nums) && Reads(msgs, t) && t.f.splitCount > 0 && !Processed(r, t.fid)
    && TracksInv(r, msgs) && HandedInv(r, msgs) && SplitInv(r, msgs)
    && r1 == r.(seen := r1.seen, processed := r.processed + [t])
  }

  /** The fragment joins or completes the tracker it finds. */
  lemma CollectKeeps(a: Receiver, r2: Receiver, r3: Receiver, o: map<int, Tracker>, t: TFrame, now: real,
                     msgs: Messages, nums: seq<nat>)
    requires Fragmentary(a, msgs, nums, t) && SplitInv(a, msgs) && TracksInv(a, msgs) && RestOf(a, r2, t)
    requires o == if t.f.splitId in a.trackers then a.trackers
                  else a.trackers[t.f.splitId := Tracker(t.f.splitCount, map[], now)]
    requires r2.trackers == Extend(o, FragmentOf(t.f), now).0
    requires r3 == if Extend(o, FragmentOf(t.f), now).1.None? then r2
                   else r2.(handed := r2.handed + [t.mid], given := r3.given, chans := r3.chans, heapCounter := r3.heapCounter,
                            queue := r3.queue, moments := r3.moments)
    ensures SplitInv(r3, msgs)
  {
    var id := t.f.splitId;
    if id in a.trackers {
      assert TrackerOk(a, msgs, id);
    }
    var tr := Tracker(o[id].total, o[id].received[t.f.splitIndex := t.f.data], now);
    ExtendCases(o, FragmentOf(t.f), now);
    if Missing(tr) {
      assert r2.trackers == a.trackers[id := tr];
      JoinsKeeps(a, r2, msgs, nums, t, tr);
    } else {
      FirstOfMany(a, o, t, now, msgs, tr);
      assert r3.trackers == a.trackers - {id};
      CompletesKeeps(a, r3, msgs, nums, t);
    }
  }

  /** The first fragment of several leaves its message incomplete. */
  lemma FirstOfMany(a: Receiver, o: map<int, Tracker>, t: TFrame, now: real, msgs: Messages, tr: Tracker)
    requires Reads(msgs, t) && t.f.splitCount > 0 && t.f.splitId in o
    requires o == if t.f.splitId in a.trackers then a.trackers
                  else a.trackers[t.f.splitId := Tracker(t.f.splitCount, map[], now)]
    requires tr == Tracker(o[t.f.splitId].total, o[t.f.splitId].received[t.f.splitIndex := t.f.data], now)
    ensures t.f.splitId in a.trackers || Missing(tr)
  {
    if t.f.splitId !in a.trackers {
      var other := if t.f.splitIndex == 0 then 1 else 0;
      assert other !in tr.received && t.f.splitIndex in tr.received.Keys;
      assert Missing(tr);
    }
  }

  lemma TooManyKeeps(r: Receiver, r1: Receiver, t: TFrame, now: real, timeout: real, victim: int, msgs: Messages, nums: seq<nat>)
    requires Fragmented(r, r1, msgs, nums, t) && t.f.splitCount > MAX_SPLIT_PACKET_COUNT
    requires !SenderQueue.Stands(r.handed, t.mid)
    ensures SplitInv(Reassembled(r1, t, now, timeout, victim).0, msgs)
  {
    var r2 := Reassembled(r1, t, now, timeout, victim).0;
    AllOwned(r, msgs);
    assert r1.trackers.Keys - r2.trackers.Keys - {t.f.splitId} == {};
    RefusesKeeps(r, r2, msgs, nums, t);
  }

  lemma MadeRoomReady(r: Receiver, r1: Receiver, t: TFrame, now: real, timeout: real, victim: int, msgs: Messages, nums: seq<nat>)
    requires Fragmented(r, r1, msgs, nums, t) && t.f.splitCount <= MAX_SPLIT_PACKET_COUNT
    requires !SenderQueue.Stands(r.handed, t.mid) && !Reassembled(r1, t, now, timeout, victim).0.mixed
    ensures var a := MadeRoom(r, t, now, timeout, victim);
      Fragmentary(a, msgs, nums, t) && SplitInv(a, msgs) && TracksInv(a, msgs)
  {
    MadeRoomGivesUp(r, t, now, timeout, victim, msgs);
    GivesUpKeeps(r, MadeRoom(r, t, now, timeout, victim), msgs);
    if t.f.splitId in r.trackers {
      assert TrackerOk(r, msgs, t.f.splitId);
    }
  }

  /** A fragment that passed the filters keeps the invariant. */
  lemma PieceKeeps(r: Receiver, r1: Receiver, t: TFrame, now: real, timeout: real, victim: int, msgs: Messages, nums: seq<nat>)
    requires Fragmented(r, r1, msgs, nums, t) && Shaped(r1) && ChannelFits(t)
    requires !Reassembled(r1, t, now, timeout, victim).0.mixed
    ensures SplitInv(Dispatch(r1, t, now, timeout, victim), msgs)
  {
    NotHandedYet(r, msgs, t);
    if t.f.splitCount > MAX_SPLIT_PACKET_COUNT {
      TooManyKeeps(r, r1, t, now, timeout, victim, msgs, nums);
    } else {
      var a := MadeRoom(r, t, now, timeout, victim);
      MadeRoomReady(r, r1, t, now, timeout, victim, msgs, nums);
      ReassembledRest(r, r1, t, now, timeout, victim, msgs);
      CollectKeeps(a, Reassembled(r1, t, now, timeout, victim).0, Dispatch(r1, t, now, timeout, victim),
                   Opened(r.trackers, FragmentOf(t.f), now, timeout, victim), t, now, msgs, nums);
    }
  }
  /** A whole message that passed the filters. */
  lemma WholeKeeps(r: Receiver, r1: Receiver, t: TFrame, msgs: Messages, nums: seq<nat>)
    requires World(msgs, nums) && Reads(msgs, t) && t.f.splitCount <= 0 && !Processed(r, t.fid)
    requires TracksInv(r, msgs) && HandedInv(r, msgs) && SplitInv(r, msgs) && Shaped(r1) && ChannelFits(t)
    requires r1 == r.(seen := r1.seen, processed := r.processed + [t])
    ensures SplitInv(Route(r1, t, t.f.data), msgs)
  {
    var b := Route(r1, t, t.f.data);
    forall mid: nat, fid: nat | IsSplit(msgs, mid) && mid !in b.discarded && !SenderQueue.Stands(b.handed, mid)
                                && Read(b, msgs, mid, fid)
      ensures Held(b, msgs, mid, fid)
    {
      ReadOne(r, b, t, fid);
      StandsAppend(r.handed, t.mid, mid);
      if fid == t.fid {
        OneMessage(msgs, nums, t, mid);
      }
      assert Read(r, msgs, mid, fid) && Held(r, msgs, mid, fid);
    }
    forall mid | mid in b.discarded
      ensures IsSplit(msgs, mid) && !SenderQueue.Stands(b.handed, mid) && Spoilt(b, msgs, mid)
    {
      var fid: nat :| Read(r, msgs, mid, fid) && !Held(r, msgs, mid, fid);
      ReadOne(r, b, t, fid);
      NotAppended(r.handed, t.mid, mid);
      assert Read(b, msgs, mid, fid) && !Held(b, msgs, mid, fid);
    }
    forall k | k in b.trackers
      ensures k in b.owners && Missing(b.trackers[k]) && !SenderQueue.Stands(b.handed, b.owners[k])
    {
      assert TrackerOk(r, msgs, k);
      NotAppended(r.handed, t.mid, r.owners[k]);
    }
  }

  lemma WholeStep(r: Receiver, b: Receiver, t: TFrame)
    requires WholeInv(r) && b.processed == r.processed + [t] && (b.handed == r.handed || b.handed == r.handed + [t.mid])
    requires t.f.splitCount <= 0 ==> b.handed == r.handed + [t.mid]
    ensures WholeInv(b)
  {
    forall i | 0 <= i < |b.processed| && b.processed[i].f.splitCount <= 0
      ensures SenderQueue.Stands(b.handed, b.processed[i].mid)
    {
      if i < |r.processed| {
        assert r.processed[i] == b.processed[i];
        StandsAppend(r.handed, t.mid, r.processed[i].mid);
      } else {
        StandsAppend(r.handed, t.mid, t.mid);
      }
    }
  }

  /** Dispatching a frame hands its message on, or nothing. */
  lemma DispatchHands(r: Receiver, t: TFrame, now: real, timeout: real, victim: int)
    requires Shaped(r) && ChannelFits(t)
    ensures var r' := Dispatch(r, t, now, timeout, victim);
      r'.processed == r.processed && (r'.handed == r.handed || r'.handed == r.handed + [t.mid])
      && (t.f.splitCount <= 0 ==> r'.handed == r.handed + [t.mid])
  {
  }

  lemma PassedHand(r: Receiver, r1: Receiver, t: TFrame, now: real, timeout: real, victim: int, msgs: Messages, nums: seq<nat>)
    requires World(msgs, nums) && Reads(msgs, t) && !Processed(r, t.fid) && ChannelFits(t)
    requires TracksInv(r, msgs) && HandedInv(r, msgs) && HandInv(r, msgs) && Shaped(r)
    requires r1 == r.(seen := r1.seen, processed := r.processed + [t])
    requires !Dispatch(r1, t, now, timeout, victim).mixed
    ensures HandInv(Dispatch(r1, t, now, timeout, victim), msgs)
  {
    DispatchHands(r1, t, now, timeout, victim);
    WholeStep(r, Dispatch(r1, t, now, timeout, victim), t);
    if t.f.splitCount > 0 {
      PieceKeeps(r, r1, t, now, timeout, victim, msgs, nums);
    } else {
      WholeKeeps(r, r1, t, msgs, nums);
    }
  }

  lemma SameHand(r: Receiver, r': Receiver, msgs: Messages)
    requires HandInv(r, msgs) && r'.processed == r.processed && r'.handed == r.handed && r'.discarded == r.discarded
    requires r'.trackers == r.trackers && r'.owners == r.owners
    ensures HandInv(r', msgs)
  {
    assert forall mid: nat, fid: nat :: mid < |msgs| ==> (Read(r', msgs, mid, fid) <==> Read(r, msgs, mid, fid));
    assert forall mid: nat, fid: nat :: mid < |msgs| ==> (Held(r', msgs, mid, fid) <==> Held(r, msgs, mid, fid));
    forall mid | mid in r'.discarded
      ensures IsSplit(msgs, mid) && Spoilt(r', msgs, mid)
    {
      var fid: nat :| Read(r, msgs, mid, fid) && !Held(r, msgs, mid, fid);
      assert Read(r', msgs, mid, fid) && !Held(r', msgs, mid, fid);
    }
  }

  /** One frame, whatever becomes of it. */
  lemma FrameHand(r: Receiver, t: TFrame, now: real, timeout: real, victim: int, msgs: Messages, nums: seq<nat>)
    requires World(msgs, nums) && ProcInv(r, msgs, nums) && Known(msgs, nums, t) && ChannelFits(t)
    requires !Reliable(t) ==> !Processed(r, t.fid)
    requires TracksInv(r, msgs) && HandedInv(r, msgs) && HandInv(r, msgs) && !HandleFrame(r, t, now, timeout, victim).mixed
    ensures HandInv(HandleFrame(r, t, now, timeout, victim), msgs)
  {
    var (r1, passed) := Filtered(r, t);
    FilterKeeps(r, t, msgs, nums);
    if passed {
      PassedHand(r, r1, t, now, timeout, victim, msgs, nums);
    } else {
      SameHand(r, r1, msgs);
    }
  }

  lemma {:induction false} FramesHand(r: Receiver, ts: seq<TFrame>, now: real, timeout: real, victims: seq<int>,
                                      msgs: Messages, nums: seq<nat>)
    requires World(msgs, nums) && ProcInv(r, msgs, nums) && AllKnown(msgs, nums, ts) && Novel(r, ts)
    requires |victims| == |ts| && forall t <- ts :: ChannelFits(t)
    requires Orderly(r, msgs) && Keyed(msgs) && HandInv(r, msgs) && !HandleFrames(r, ts, now, timeout, victims).mixed
    ensures HandInv(HandleFrames(r, ts, now, timeout, victims), msgs)
    decreases |ts|
  {
    if ts != [] {
      var r1 := HandleFrame(r, ts[0], now, timeout, victims[0]);
      MixedStaysAll(r1, ts[1..], now, timeout, victims[1..]);
      FrameOrderly(r, ts[0], now, timeout, victims[0], msgs, nums);
      FrameHand(r, ts[0], now, timeout, victims[0], msgs, nums);
      FrameKeeps(r, ts[0], now, timeout, victims[0], msgs, nums);
      NovelTail(r, r1, ts);
      assert forall t <- ts[1..] :: t in ts;
      FramesHand(r1, ts[1..], now, timeout, victims[1..], msgs, nums);
    }
  }

  /** One datagram keeps the invariant. */
  lemma DataHand(r: Receiver, n: nat, net: SenderNet.Net, now: real, timeout: real, victims: seq<int>,
                 msgs: Messages, nums: seq<nat>)
    requires Readable(r, n, net, msgs, nums) && |victims| == |net[n]|
    requires forall t <- Arriving(net[n]) :: ChannelFits(t)
    requires Orderly(r, msgs) && Keyed(msgs) && HandInv(r, msgs)
    requires !HandleData(r, n, Arriving(net[n]), now, timeout, victims).mixed
    ensures HandInv(HandleData(r, n, Arriving(net[n]), now, timeout, victims), msgs)
  {
    var ts := Arriving(net[n]);
    match Congestion.Got(r.expected, n)
    case (_, None) =>
    case (e, Some(skipped)) =>
      var r1 := r.(expected := e, acks := r.acks + {n}, naks := r.naks + ReceiverSpec.Missing(r.recent, n, skipped));
      if r.recent.Has(n) {
        SameHand(r, HandleData(r, n, ts, now, timeout, victims), msgs);
      } else {
        ReadableNovel(r, n, net, msgs, nums);
        var r2 := r1.(recent := Record(r.recent, RECEIVED_WINDOW_SIZE, n));
        SameOrderly(r, r2, msgs);
        SameHand(r, r2, msgs);
        FramesHand(r2, ts, now, timeout, victims, msgs, nums);
      }
  }

  /** Stale trackers take their messages with them. */
  lemma TickHand(r: Receiver, now: real, timeout: real, sendAcks: bool, msgs: Messages)
    requires TracksInv(r, msgs) && HandInv(r, msgs)
    ensures HandInv(Ticked(r, now, timeout, sendAcks), msgs)
  {
    var r' := GivenUp(r, now, timeout);
    AllOwned(r, msgs);
    GivesUpKeeps(r, r', msgs);
    assert WholeInv(r');
    SameHand(r', Ticked(r, now, timeout, sendAcks), msgs);
  }

  // ---------- what is given up, exactly ----------

  /** Reading a frame gives up exactly the messages whose trackers had to make
      room for a new one: those that heard nothing for longer than the timeout,
      and at 512 running ones the victim; and the frame's own message if it has
      more than 65536 fragments. */
  lemma GivenUpExactly(r: Receiver, t: TFrame, now: real, timeout: real, victim: int, mid: nat)
    requires t.f.splitCount > 0
    ensures mid in Reassembled(r, t, now, timeout, victim).0.discarded <==>
      mid in r.discarded
      || (t.f.splitCount > 65536 && mid == t.mid)
      || (t.f.splitCount <= 65536 && t.f.splitId !in r.trackers
          && exists k :: k in r.trackers && k in r.owners && r.owners[k] == mid
                         && (now - r.trackers[k].lastUpdate > timeout
                             || (|Live(r.trackers, now, timeout)| >= 512 && k == victim)))
  {
    if t.f.splitCount <= 65536 {
      GoneAre(r.trackers, t, now, timeout, victim);
    }
    var gone := r.trackers.Keys - Reassembled(r, t, now, timeout, victim).0.trackers.Keys - {t.f.splitId};
    assert mid in OwnersOf(r, gone) <==> exists k :: k in gone && k in r.owners && r.owners[k] == mid;
  }

  /** The victim is a tracker that has heard nothing for as long as any other. */
  lemma VictimIsOldest(r: Receiver, t: TFrame, now: real, timeout: real, victim: int, k: int, j: int)
    requires t.f.splitCount <= 65536 && t.f.splitId !in r.trackers
    requires VictimOk(r.trackers, FragmentOf(t.f), now, timeout, victim)
    ensures var ts := Live(r.trackers, now, timeout);
      k in ts && k !in Evicted(r.trackers, now, timeout, victim) && j in ts ==>
        |ts| >= 512 && ts[k].lastUpdate <= ts[j].lastUpdate
  {
  }

  /** A tick gives up exactly the messages that heard nothing for longer than the timeout. */
  lemma TickGivesUp(r: Receiver, now: real, timeout: real, sendAcks: bool, mid: nat)
    ensures mid in Ticked(r, now, timeout, sendAcks).discarded <==>
      mid in r.discarded
      || exists k :: k in r.trackers && k in r.owners && r.owners[k] == mid && now - r.trackers[k].lastUpdate > timeout
  {
    var gone := r.trackers.Keys - Live(r.trackers, now, timeout).Keys;
    assert mid in OwnersOf(r, gone) <==> exists k :: k in gone && k in r.owners && r.owners[k] == mid;
  }
}
