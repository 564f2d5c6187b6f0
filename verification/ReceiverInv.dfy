/** What every run of the receiver keeps, given what the sender has recorded. */
module ReceiverInv {
  import opened Types
  import opened WireFormat
  import opened Tags
  import opened Windows
  import opened Splitting
  import opened ReceiverSpec
  import SenderSpec
  import SenderInv
  import SenderNet
  import Congestion

  type Messages = seq<SenderSpec.Message>

  /** A frame as it comes off the wire. */
  function Arrived(t: TFrame): TFrame {
    t.(f := Canonical(t.f))
  }

  function Arriving(ts: seq<TFrame>): (r: seq<TFrame>)
    ensures |r| == |ts| && forall i :: 0 <= i < |ts| ==> r[i] == Arrived(ts[i])
  {
    seq(|ts|, i requires 0 <= i < |ts| => Arrived(ts[i]))
  }

  // ---------- frames and messages ----------

  predicate IsPiece(msgs: Messages, t: TFrame, i: int) {
    t.mid < |msgs| && 0 <= i < |msgs[t.mid].pieces| && t.fid == msgs[t.mid].first + i
  }

  predicate Owns(m: SenderSpec.Message, fid: nat) {
    m.first <= fid < m.first + |m.pieces|
  }

  /** Messages are well made and share no frame, frames share no number. */
  ghost predicate World(msgs: Messages, nums: seq<nat>) {
    (forall mid :: 0 <= mid < |msgs| ==> SenderInv.WellMade(msgs[mid]))
    && (forall a, b, fid :: 0 <= a < |msgs| && 0 <= b < |msgs| && Owns(msgs[a], fid) && Owns(msgs[b], fid) ==> a == b)
    && SenderInv.Distinct(nums)
  }

  /** The fields the receiver looks at are those of piece fid - first of the message. */
  predicate Reads(msgs: Messages, t: TFrame) {
    t.mid < |msgs| && IsPiece(msgs, t, t.fid - msgs[t.mid].first)
    && var m := msgs[t.mid];
    var i := t.fid - m.first;
    t.f.data == m.pieces[i] && t.f.reliability.IsReliable() == m.rel.IsReliable()
    && t.f.reliability.IsOrdered() == m.rel.IsOrdered() && t.f.reliability.IsSequenced() == m.rel.IsSequenced()
    && (m.rel.IsOrdered() ==> t.f.orderingIndex == m.oi && t.f.orderingChannel == m.ch)
    && (m.rel.IsSequenced() ==> t.f.sequencingIndex == m.sub)
    && t.f.splitCount == (if |m.pieces| == 1 then 0 else |m.pieces|)
    && (|m.pieces| > 1 ==> t.f.splitId == m.splitId && t.f.splitIndex == i)
  }

  /** A reliable frame carries its own number. */
  predicate Known(msgs: Messages, nums: seq<nat>, t: TFrame) {
    Reads(msgs, t)
    && (t.f.reliability.IsReliable() ==> 0 <= t.f.reliableNumber < |nums| && nums[t.f.reliableNumber] == t.fid)
  }

  /** Every sound frame arrives as a known one. */
  lemma SoundArrives(msgs: Messages, log: seq<TFrame>, nums: seq<nat>, t: TFrame)
    requires SenderInv.LogInv(msgs, log) && SenderInv.Sound(log, nums, t)
    ensures Known(msgs, nums, Arrived(t)) && ChannelFits(Arrived(t))
    ensures Arrived(t).f.reliability.IsReliable() == t.f.reliability.IsReliable()
    ensures t.f.reliability.IsReliable() ==> Arrived(t).f.reliableNumber == t.f.reliableNumber
  {
    SenderInv.LogAt(msgs, log, t.fid);
    BaseKeepsFields(t.f.reliability);
  }

  // ---------- processed once ----------

  predicate Reliable(t: TFrame) {
    t.f.reliability.IsReliable()
  }

  ghost predicate Processed(r: Receiver, fid: nat) {
    exists i :: 0 <= i < |r.processed| && r.processed[i].fid == fid
  }

  /** Each frame is processed at most once, and the reliable numbers seen are
      exactly those of processed frames. */
  ghost predicate ProcInv(r: Receiver, msgs: Messages, nums: seq<nat>) {
    Shaped(r) && r.seen.Valid()
    && (forall i :: 0 <= i < |r.processed| ==> Known(msgs, nums, r.processed[i]))
    && (forall i, j :: 0 <= i < j < |r.processed| ==> r.processed[i].fid != r.processed[j].fid)
    && (forall i :: 0 <= i < |r.processed| && Reliable(r.processed[i]) ==> r.seen.Has(r.processed[i].f.reliableNumber))
    && (forall n: nat :: r.seen.Has(n) ==> n < |nums| && Processed(r, nums[n]))
  }

  /** A reliable frame has been processed, or its number was refused. */
  predicate Covered(r: Receiver, t: TFrame) {
    Reliable(t) ==> r.seen.Has(t.f.reliableNumber) || t.f.reliableNumber in r.refused
  }

  /** Nothing seen, refused or processed is forgotten. */
  ghost predicate Remembers(r: Receiver, r': Receiver) {
    (forall n :: r.seen.Has(n) ==> r'.seen.Has(n)) && r.refused <= r'.refused && r.processed <= r'.processed
  }

  /** The duplicate filter lets a frame through only the first time. */
  lemma FilterKeeps(r: Receiver, t: TFrame, msgs: Messages, nums: seq<nat>)
    requires World(msgs, nums) && ProcInv(r, msgs, nums) && Known(msgs, nums, t)
    requires !Reliable(t) ==> !Processed(r, t.fid)
    ensures var (r', passed) := Filtered(r, t);
      ProcInv(r', msgs, nums) && Remembers(r, r') && Covered(r', t)
      && r'.processed == (if passed then r.processed + [t] else r.processed)
      && (passed ==> !Processed(r, t.fid))
  {
    MarkAdds(r.seen, t.f.reliableNumber);
    var (r', passed) := Filtered(r, t);
    if passed {
      FirstTime(r, t, msgs, nums);
      assert r'.processed[|r.processed|] == t;
      forall n: nat | r'.seen.Has(n)
        ensures n < |nums| && Processed(r', nums[n])
      {
        if r.seen.Has(n) {
          var i :| 0 <= i < |r.processed| && r.processed[i].fid == nums[n];
          assert r'.processed[i].fid == nums[n];
        }
      }
    }
  }

  /** A reliable frame that was processed has its number marked. */
  lemma FirstTime(r: Receiver, t: TFrame, msgs: Messages, nums: seq<nat>)
    requires World(msgs, nums) && ProcInv(r, msgs, nums) && Known(msgs, nums, t)
    requires if Reliable(t) then !r.seen.Has(t.f.reliableNumber) else !Processed(r, t.fid)
    ensures !Processed(r, t.fid)
  {
    forall i | 0 <= i < |r.processed| && r.processed[i].fid == t.fid
      ensures false
    {
      var u := r.processed[i];
      assert Known(msgs, nums, u);
      assert Owns(msgs[u.mid], t.fid) && Owns(msgs[t.mid], t.fid);
    }
  }

  lemma FrameKeeps(r: Receiver, t: TFrame, now: real, timeout: real, victim: int, msgs: Messages, nums: seq<nat>)
    requires World(msgs, nums) && ProcInv(r, msgs, nums) && Known(msgs, nums, t) && ChannelFits(t)
    requires !Reliable(t) ==> !Processed(r, t.fid)
    ensures var r' := HandleFrame(r, t, now, timeout, victim);
      ProcInv(r', msgs, nums) && Remembers(r, r') && Covered(r', t) && r'.recent == r.recent
      && (r'.processed == r.processed || r'.processed == r.processed + [t])
  {
    FilterKeeps(r, t, msgs, nums);
    HandleFrameFilter(r, t, now, timeout, victim);
    SameFilterKeeps(r, Filtered(r, t).0, HandleFrame(r, t, now, timeout, victim), t, msgs, nums);
  }

  lemma SameFilterKeeps(r: Receiver, a: Receiver, b: Receiver, t: TFrame, msgs: Messages, nums: seq<nat>)
    requires SameFilter(a, b) && World(msgs, nums) && ProcInv(a, msgs, nums) && Remembers(r, a) && Covered(a, t)
    ensures ProcInv(b, msgs, nums) && Remembers(r, b) && Covered(b, t)
  {
  }

  ghost predicate AllKnown(msgs: Messages, nums: seq<nat>, ts: seq<TFrame>) {
    forall i :: 0 <= i < |ts| ==> Known(msgs, nums, ts[i]) && ChannelFits(ts[i])
  }

  /** No unreliable frame of the datagram was processed before, and none comes twice. */
  ghost predicate Novel(r: Receiver, ts: seq<TFrame>) {
    (forall i :: 0 <= i < |ts| && !Reliable(ts[i]) ==> !Processed(r, ts[i].fid))
    && (forall i, j :: 0 <= i < j < |ts| && ts[i].fid == ts[j].fid ==> Reliable(ts[i]) && Reliable(ts[j]))
  }

  lemma NovelTail(r: Receiver, r': Receiver, ts: seq<TFrame>)
    requires ts != [] && Novel(r, ts)
    requires r'.processed == r.processed || r'.processed == r.processed + [ts[0]]
    ensures Novel(r', ts[1..])
  {
    forall i | 0 <= i < |ts[1..]| && !Reliable(ts[1..][i])
      ensures !Processed(r', ts[1..][i].fid)
    {
      assert ts[1..][i] == ts[i + 1];
      assert ts[0].fid != ts[i + 1].fid;
      forall k | 0 <= k < |r'.processed|
        ensures r'.processed[k].fid != ts[i + 1].fid
      {
        assert k < |r.processed| ==> r'.processed[k] == r.processed[k];
      }
    }
  }

  ghost predicate AllCovered(r: Receiver, ts: seq<TFrame>) {
    forall i :: 0 <= i < |ts| ==> Covered(r, ts[i])
  }

  ghost predicate Among(ts: seq<TFrame>, t: TFrame) {
    exists i :: 0 <= i < |ts| && ts[i] == t
  }

  ghost predicate FromThese(r: Receiver, r': Receiver, ts: seq<TFrame>) {
    r.processed <= r'.processed
    && forall k :: |r.processed| <= k < |r'.processed| ==> Among(ts, r'.processed[k])
  }

  lemma FromTheseCons(r: Receiver, r1: Receiver, r': Receiver, ts: seq<TFrame>)
    requires ts != [] && FromThese(r1, r', ts[1..])
    requires r1.processed == r.processed || r1.processed == r.processed + [ts[0]]
    ensures FromThese(r, r', ts)
  {
    forall k | |r.processed| <= k < |r'.processed|
      ensures Among(ts, r'.processed[k])
    {
      if k < |r1.processed| {
        assert r'.processed[k] == r1.processed[k];
        assert ts[0] == r'.processed[k];
      } else {
        var i :| 0 <= i < |ts[1..]| && ts[1..][i] == r'.processed[k];
        assert ts[i + 1] == r'.processed[k];
      }
    }
  }

  /** All frames of a datagram are read: each is processed or covered already. */
  lemma {:induction false} FramesKeep(r: Receiver, ts: seq<TFrame>, now: real, timeout: real, victims: seq<int>,
                                      msgs: Messages, nums: seq<nat>)
    requires World(msgs, nums) && ProcInv(r, msgs, nums) && AllKnown(msgs, nums, ts) && Novel(r, ts)
    requires |victims| == |ts| && forall t <- ts :: ChannelFits(t)
    ensures var r' := HandleFrames(r, ts, now, timeout, victims);
      ProcInv(r', msgs, nums) && Remembers(r, r') && AllCovered(r', ts) && r'.recent == r.recent && FromThese(r, r', ts)
    decreases |ts|
  {
    if ts != [] {
      var r1 := HandleFrame(r, ts[0], now, timeout, victims[0]);
      FrameKeeps(r, ts[0], now, timeout, victims[0], msgs, nums);
      NovelTail(r, r1, ts);
      assert forall t <- ts[1..] :: t in ts;
      FramesKeep(r1, ts[1..], now, timeout, victims[1..], msgs, nums);
      var r' := HandleFrames(r1, ts[1..], now, timeout, victims[1..]);
      FromTheseCons(r, r1, r', ts);
      forall i | 0 <= i < |ts|
        ensures Covered(r', ts[i])
      {
        assert i > 0 ==> ts[i] == ts[1..][i - 1];
      }
    }
  }

  // ---------- datagrams ----------

  ghost predicate Carries(ts: seq<TFrame>, fid: nat) {
    exists i :: 0 <= i < |ts| && ts[i].fid == fid
  }

  /** Some datagram that counts as received carries the frame. */
  ghost predicate ReceivedWith(recent: Recent, net: SenderNet.Net, fid: nat) {
    exists n :: 0 <= n < |net| && recent.Has(n) && Carries(net[n], fid)
  }

  /** Unreliable frames were processed with a datagram that will not be read again. */
  ghost predicate OnceInv(r: Receiver, net: SenderNet.Net) {
    r.recent.Valid(RECEIVED_WINDOW_SIZE)
    && forall i :: 0 <= i < |r.processed| && !Reliable(r.processed[i]) ==>
         ReceivedWith(r.recent, net, r.processed[i].fid)
  }

  lemma NotElsewhere(recent: Recent, net: SenderNet.Net, n: nat, i: nat)
    requires SenderNet.NetOnce(net) && n < |net| && i < |net[n]| && !Reliable(net[n][i]) && !recent.Has(n)
    ensures !ReceivedWith(recent, net, net[n][i].fid)
  {
    forall m | 0 <= m < |net| && recent.Has(m)
      ensures !Carries(net[m], net[n][i].fid)
    {
      forall j | 0 <= j < |net[m]|
        ensures net[m][j].fid != net[n][i].fid
      {
        assert m != n;
      }
    }
  }

  lemma FirstReading(r: Receiver, net: SenderNet.Net, n: nat)
    requires OnceInv(r, net) && SenderNet.NetOnce(net) && n < |net| && !r.recent.Has(n)
    requires forall i :: 0 <= i < |net[n]| ==> Reliable(Arrived(net[n][i])) == Reliable(net[n][i])
    requires forall i :: 0 <= i < |r.processed| && Carries(net[n], r.processed[i].fid) ==>
      forall j :: 0 <= j < |net[n]| && net[n][j].fid == r.processed[i].fid ==> Reliable(net[n][j]) == Reliable(r.processed[i])
    ensures Novel(r, Arriving(net[n]))
  {
    var ts := Arriving(net[n]);
    forall i | 0 <= i < |ts| && !Reliable(ts[i])
      ensures !Processed(r, ts[i].fid)
    {
      NotElsewhere(r.recent, net, n, i);
      forall k | 0 <= k < |r.processed|
        ensures r.processed[k].fid != ts[i].fid
      {
        assert net[n][i].fid == r.processed[k].fid ==> Carries(net[n], r.processed[k].fid);
      }
    }
    forall i, j | 0 <= i < j < |ts| && ts[i].fid == ts[j].fid
      ensures Reliable(ts[i]) && Reliable(ts[j])
    {
      assert net[n][i].fid == net[n][j].fid && net[n][j].fid == net[n][i].fid;
    }
  }

  /** Frames of one fid are of one message, hence alike reliable. */
  lemma SameReliability(msgs: Messages, nums: seq<nat>, a: TFrame, b: TFrame)
    requires World(msgs, nums) && Known(msgs, nums, a) && Known(msgs, nums, b) && a.fid == b.fid
    ensures a.mid == b.mid && Reliable(a) == Reliable(b)
  {
    assert Owns(msgs[a.mid], a.fid) && Owns(msgs[b.mid], a.fid);
  }

  lemma OnceGrows(r: Receiver, r': Receiver, net: SenderNet.Net, n: nat)
    requires OnceInv(r, net) && n < |net| && r'.recent == Record(r.recent, RECEIVED_WINDOW_SIZE, n)
    requires FromThese(r, r', Arriving(net[n]))
    ensures OnceInv(r', net)
  {
    RecordRemembers(r.recent, RECEIVED_WINDOW_SIZE, n);
    forall i | 0 <= i < |r'.processed| && !Reliable(r'.processed[i])
      ensures ReceivedWith(r'.recent, net, r'.processed[i].fid)
    {
      if i < |r.processed| {
        assert r'.processed[i] == r.processed[i];
        var m :| 0 <= m < |net| && r.recent.Has(m) && Carries(net[m], r.processed[i].fid);
        assert r'.recent.Has(m);
      } else {
        var j :| 0 <= j < |net[n]| && Arriving(net[n])[j] == r'.processed[i];
        assert net[n][j].fid == r'.processed[i].fid;
        assert Carries(net[n], r'.processed[i].fid);
      }
    }
  }

  lemma RefusedCovers(r: Receiver, r': Receiver, ts: seq<TFrame>)
    requires r'.seen == r.seen && r'.refused == r.refused + Unseen(r.seen, ts)
    ensures AllCovered(r', ts)
  {
    forall i | 0 <= i < |ts|
      ensures Covered(r', ts[i])
    {
      assert ts[i] in ts;
    }
  }

  /** The conditions under which datagram n of net is read. */
  ghost predicate Readable(r: Receiver, n: nat, net: SenderNet.Net, msgs: Messages, nums: seq<nat>) {
    World(msgs, nums) && ProcInv(r, msgs, nums) && OnceInv(r, net) && n < |net| && SenderNet.NetOnce(net)
    && AllKnown(msgs, nums, Arriving(net[n]))
    && forall i :: 0 <= i < |net[n]| ==> Reliable(Arrived(net[n][i])) == Reliable(net[n][i])
  }

  lemma ReadableNovel(r: Receiver, n: nat, net: SenderNet.Net, msgs: Messages, nums: seq<nat>)
    requires Readable(r, n, net, msgs, nums) && !r.recent.Has(n)
    ensures Novel(r, Arriving(net[n]))
  {
    forall i, j | 0 <= i < |r.processed| && 0 <= j < |net[n]| && net[n][j].fid == r.processed[i].fid
      ensures Reliable(net[n][j]) == Reliable(r.processed[i])
    {
      assert Known(msgs, nums, r.processed[i]) && Known(msgs, nums, Arriving(net[n])[j]);
      SameReliability(msgs, nums, r.processed[i], Arriving(net[n])[j]);
    }
    FirstReading(r, net, n);
  }

  /** A datagram that is acknowledged leaves all its reliable frames covered. */
  lemma DataKeeps(r: Receiver, n: nat, net: SenderNet.Net, now: real, timeout: real, victims: seq<int>,
                  msgs: Messages, nums: seq<nat>)
    requires Readable(r, n, net, msgs, nums) && |victims| == |net[n]|
    requires forall t <- Arriving(net[n]) :: ChannelFits(t)
    ensures var r' := HandleData(r, n, Arriving(net[n]), now, timeout, victims);
      ProcInv(r', msgs, nums) && OnceInv(r', net) && Remembers(r, r')
      && (Congestion.Got(r.expected, n).1.Some? ==> AllCovered(r', Arriving(net[n])))
  {
    var ts := Arriving(net[n]);
    var r' := HandleData(r, n, ts, now, timeout, victims);
    match Congestion.Got(r.expected, n)
    case (_, None) =>
    case (e, Some(skipped)) =>
      var r1 := r.(expected := e, acks := r.acks + {n}, naks := r.naks + Missing(r.recent, n, skipped));
      if r.recent.Has(n) {
        RefusedCovers(r1, r', ts);
      } else {
        ReadableNovel(r, n, net, msgs, nums);
        var r2 := r1.(recent := Record(r.recent, RECEIVED_WINDOW_SIZE, n));
        FramesKeep(r2, ts, now, timeout, victims, msgs, nums);
        OnceGrows(r, r', net, n);
      }
  }
}
