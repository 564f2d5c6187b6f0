/** What every run of the sender keeps: its messages, their frames and keys,
    the reliable numbers given out, and what the datagrams carry. */
module SenderInv {
  import opened Types
  import opened Tags
  import opened SenderSpec
  import opened SenderQueue
  import Splitting

  // ---------- messages and their frames ----------

  function FrameOf(m: Message, mid: nat, i: nat): TFrame
    requires i < |m.pieces|
  {
    TFrame(m.first + i, mid, NewFrame(m, i))
  }

  ghost predicate WellMade(m: Message) {
    |m.pieces| > 0 && Splitting.Join(m.pieces) == m.data && m.ch < NUMBER_OF_ORDERED_STREAMS
    && m.splitId < 0x10000
  }

  /** The frame at position fid is a piece of its message. */
  ghost predicate Owned(msgs: seq<Message>, t: TFrame, fid: nat) {
    t.mid < |msgs| && msgs[t.mid].first <= fid < msgs[t.mid].first + |msgs[t.mid].pieces|
  }

  ghost predicate WithinLog(msgs: seq<Message>, n: nat) {
    forall mid :: 0 <= mid < |msgs| ==> WellMade(msgs[mid]) && msgs[mid].first + |msgs[mid].pieces| <= n
  }

  lemma WithinAppend(msgs: seq<Message>, m: Message, n: nat)
    requires WithinLog(msgs, n) && WellMade(m) && m.first == n
    ensures WithinLog(msgs + [m], n + |m.pieces|)
  {
  }

  /** The log holds the pieces of every message, one after the other, and nothing else. */
  ghost predicate LogInv(msgs: seq<Message>, log: seq<TFrame>) {
    WithinLog(msgs, |log|)
    && (forall mid, i :: 0 <= mid < |msgs| && 0 <= i < |msgs[mid].pieces| ==>
          log[msgs[mid].first + i] == FrameOf(msgs[mid], mid, i))
    && (forall fid :: 0 <= fid < |log| ==> Owned(msgs, log[fid], fid))
  }

  lemma LogAt(msgs: seq<Message>, log: seq<TFrame>, fid: nat)
    requires LogInv(msgs, log) && fid < |log|
    ensures var mid := log[fid].mid;
      mid < |msgs| && 0 <= fid - msgs[mid].first < |msgs[mid].pieces|
      && log[fid] == FrameOf(msgs[mid], mid, fid - msgs[mid].first) && log[fid].fid == fid
  {
    var m := msgs[log[fid].mid];
    assert log[m.first + (fid - m.first)] == FrameOf(m, log[fid].mid, fid - m.first);
  }

  function Made(m: Message, mid: nat, i: nat): (r: seq<TFrame>)
    requires i <= |m.pieces|
    ensures |r| == |m.pieces| - i && forall k :: 0 <= k < |r| ==> r[k] == FrameOf(m, mid, i + k)
  {
    seq(|m.pieces| - i, k requires 0 <= k < |m.pieces| - i => FrameOf(m, mid, i + k))
  }

  /** What queueing leaves alone. */
  predicate Unqueued(a: Sender, b: Sender) {
    a.sent == b.sent && a.nextReliable == b.nextReliable && a.resend == b.resend && a.history == b.history
    && a.emitted == b.emitted && a.numbered == b.numbered && a.untracked == b.untracked
    && a.nextOrdering == b.nextOrdering && a.nextSequencing == b.nextSequencing && a.msgs == b.msgs
  }

  lemma {:induction false} EnqueueFromLog(s: Sender, mid: nat, m: Message, i: nat, p: nat)
    requires Shaped(s) && p < PRIORITIES && i <= |m.pieces| && m.first + i == |s.log|
    ensures var s' := EnqueueFrom(s, mid, m, i, p);
      s'.log == s.log + Made(m, mid, i) && Unqueued(s, s')
    decreases |m.pieces| - i
  {
    if i < |m.pieces| {
      var s1 := Enqueue(s, mid, NewFrame(m, i), p);
      EnqueueFromLog(s1, mid, m, i + 1, p);
      assert s.log + [FrameOf(m, mid, i)] + Made(m, mid, i + 1) == s.log + Made(m, mid, i);
    } else {
      assert s.log + Made(m, mid, i) == s.log;
    }
  }

  lemma LogAppend(msgs: seq<Message>, log: seq<TFrame>, m: Message)
    requires LogInv(msgs, log) && WellMade(m) && m.first == |log|
    ensures LogInv(msgs + [m], log + Made(m, |msgs|, 0))
  {
    var msgs', log' := msgs + [m], log + Made(m, |msgs|, 0);
    WithinAppend(msgs, m, |log|);
    forall mid, i | 0 <= mid < |msgs'| && 0 <= i < |msgs'[mid].pieces|
      ensures log'[msgs'[mid].first + i] == FrameOf(msgs'[mid], mid, i)
    {
      AppendedPiece(msgs, log, m, Made(m, |msgs|, 0), mid, i);
    }
    forall fid | 0 <= fid < |log'|
      ensures Owned(msgs', log'[fid], fid)
    {
      AppendedOwner(msgs, log, m, Made(m, |msgs|, 0), fid);
    }
  }

  lemma AppendedPiece(msgs: seq<Message>, log: seq<TFrame>, m: Message, made: seq<TFrame>, mid: nat, i: nat)
    requires LogInv(msgs, log) && m.first == |log| && made == Made(m, |msgs|, 0)
    requires mid <= |msgs| && i < |(msgs + [m])[mid].pieces|
    ensures (msgs + [m])[mid].first + i < |log + made|
    ensures (log + made)[(msgs + [m])[mid].first + i] == FrameOf((msgs + [m])[mid], mid, i)
  {
    if mid < |msgs| {
      assert log[msgs[mid].first + i] == FrameOf(msgs[mid], mid, i);
    }
  }

  lemma AppendedOwner(msgs: seq<Message>, log: seq<TFrame>, m: Message, made: seq<TFrame>, fid: nat)
    requires LogInv(msgs, log) && m.first == |log| && made == Made(m, |msgs|, 0) && fid < |log + made|
    ensures Owned(msgs + [m], (log + made)[fid], fid)
  {
    if fid >= |log| {
      assert made[fid - |log|] == FrameOf(m, |msgs|, fid - |log|);
    } else {
      assert Owned(msgs, log[fid], fid);
    }
  }

  /** Every message `send` makes joins back to its payload. */
  lemma NewMessageWellMade(s: Sender, data: Bytes, rel: Reliability, ch: nat, mtu: int)
    requires Shaped(s) && ch < NUMBER_OF_ORDERED_STREAMS
    ensures WellMade(NewMessage(s, data, rel, ch, mtu)) && NewMessage(s, data, rel, ch, mtu).first == |s.log|
  {
    var k := MaxPayload(mtu);
    if |data| <= k {
      assert [data][..0] == [];
      assert Splitting.Join([data]) == Splitting.Join([]) + data;
    } else {
      Splitting.PiecesJoin(data, k);
    }
  }

  // ---------- channel keys ----------

  predicate Channelled(m: Message) {
    m.rel.IsOrdered()
  }

  /** a was sent before b on the channel: the order of (ordering index, sub-key). */
  predicate Precedes(a: Message, b: Message) {
    a.oi < b.oi || (a.oi == b.oi && a.rel.IsSequenced() && (!b.rel.IsSequenced() || a.sub < b.sub))
  }

  predicate KeyUsed(m: Message, oi: nat, sub: nat) {
    m.oi < oi || (m.oi == oi && m.rel.IsSequenced() && m.sub < sub)
  }

  predicate OrderedAt(m: Message, ch: nat, oi: nat) {
    m.rel.IsOrdered() && !m.rel.IsSequenced() && m.ch == ch && m.oi == oi
  }

  ghost predicate Taken(msgs: seq<Message>, ch: nat, oi: nat) {
    exists mid :: 0 <= mid < |msgs| && OrderedAt(msgs[mid], ch, oi)
  }

  /** Keys strictly increase along each channel, stay below the counters, and
      the ordered messages take every ordering index below the counter. */
  ghost predicate KeysInv(s: Sender) {
    Shaped(s)
    && (forall mid :: 0 <= mid < |s.msgs| ==> s.msgs[mid].ch < NUMBER_OF_ORDERED_STREAMS)
    && (forall mid :: 0 <= mid < |s.msgs| && Channelled(s.msgs[mid]) ==>
          KeyUsed(s.msgs[mid], s.nextOrdering[s.msgs[mid].ch], s.nextSequencing[s.msgs[mid].ch]))
    && (forall a, b :: 0 <= a < b < |s.msgs| && Channelled(s.msgs[a]) && Channelled(s.msgs[b]) && s.msgs[a].ch == s.msgs[b].ch
          ==> Precedes(s.msgs[a], s.msgs[b]))
    && (forall ch: nat, k: nat :: ch < NUMBER_OF_ORDERED_STREAMS && k < s.nextOrdering[ch] ==> Taken(s.msgs, ch, k))
  }

  lemma AcceptedKeys(s: Sender, data: Bytes, rel: Reliability, ch: nat, mtu: int)
    requires KeysInv(s) && ch < NUMBER_OF_ORDERED_STREAMS
    ensures KeysInv(Accepted(s, NewMessage(s, data, rel, ch, mtu)))
  {
    var m := NewMessage(s, data, rel, ch, mtu);
    var s' := Accepted(s, m);
    AcceptedBelow(s, m);
    forall c: nat, k: nat | c < NUMBER_OF_ORDERED_STREAMS && k < s'.nextOrdering[c]
      ensures Taken(s'.msgs, c, k)
    {
      if k < s.nextOrdering[c] {
        assert Taken(s.msgs, c, k);
        var mid :| 0 <= mid < |s.msgs| && OrderedAt(s.msgs[mid], c, k);
        assert OrderedAt(s'.msgs[mid], c, k);
      } else {
        assert OrderedAt(s'.msgs[|s.msgs|], c, k);
      }
    }
  }

  /** The counters only move past the keys given out. */
  lemma AcceptedBelow(s: Sender, m: Message)
    requires KeysInv(s) && m.ch < NUMBER_OF_ORDERED_STREAMS
    requires m.oi == OrderingFor(s, m.rel, m.ch) && m.sub == SequencingFor(s, m.rel, m.ch)
    ensures var s' := Accepted(s, m);
      (forall mid :: 0 <= mid < |s'.msgs| && Channelled(s'.msgs[mid]) ==>
          KeyUsed(s'.msgs[mid], s'.nextOrdering[s'.msgs[mid].ch], s'.nextSequencing[s'.msgs[mid].ch]))
      && (forall a :: 0 <= a < |s.msgs| && Channelled(s.msgs[a]) && Channelled(m) && s.msgs[a].ch == m.ch
            ==> Precedes(s.msgs[a], m))
  {
  }

  // ---------- numbers ----------

  function Assigned(t: TFrame, n: int): TFrame {
    t.(f := t.f.(reliableNumber := n))
  }

  predicate IsReliable(t: TFrame) {
    t.f.reliability.IsReliable()
  }

  /** t is a logged frame, carrying its own number if it is reliable. */
  predicate Sound(log: seq<TFrame>, nums: seq<nat>, t: TFrame) {
    t.fid < |log|
    && if IsReliable(log[t.fid]) then
         0 <= t.f.reliableNumber < |nums| && nums[t.f.reliableNumber] == t.fid && t == Assigned(log[t.fid], t.f.reliableNumber)
       else t == log[t.fid]
  }

  ghost predicate AllSound(log: seq<TFrame>, nums: seq<nat>, ts: seq<TFrame>) {
    forall i :: 0 <= i < |ts| ==> Sound(log, nums, ts[i])
  }

  lemma SoundGrows(log: seq<TFrame>, nums: seq<nat>, log': seq<TFrame>, nums': seq<nat>, t: TFrame)
    requires Sound(log, nums, t) && log <= log' && nums <= nums'
    ensures Sound(log', nums', t)
  {
  }

  /** The reliable frames among fids. */
  function ReliableOnly(log: seq<TFrame>, fids: seq<nat>): seq<nat> {
    if fids == [] then []
    else (if fids[0] < |log| && IsReliable(log[fids[0]]) then [fids[0]] else []) + ReliableOnly(log, fids[1..])
  }

  lemma {:induction false} ReliableOnlyConcat(log: seq<TFrame>, a: seq<nat>, b: seq<nat>)
    ensures ReliableOnly(log, a + b) == ReliableOnly(log, a) + ReliableOnly(log, b)
  {
    if a == [] {
      assert a + b == b;
    } else {
      assert (a + b)[1..] == a[1..] + b;
      ReliableOnlyConcat(log, a[1..], b);
    }
  }

  lemma {:induction false} ReliableOnlyGrows(log: seq<TFrame>, log': seq<TFrame>, fids: seq<nat>)
    requires log <= log' && forall i :: 0 <= i < |fids| ==> fids[i] < |log|
    ensures ReliableOnly(log', fids) == ReliableOnly(log, fids)
  {
    if fids != [] {
      ReliableOnlyGrows(log, log', fids[1..]);
    }
  }

  lemma StandsCons(x: nat, s: seq<nat>, f: nat)
    ensures Stands([x] + s, f) <==> f == x || Stands(s, f)
  {
    if f == x {
      assert ([x] + s)[0] == f;
    }
    if Stands(s, f) {
      var i :| 0 <= i < |s| && s[i] == f;
      assert ([x] + s)[i + 1] == f;
    }
    if Stands([x] + s, f) && f != x {
      var i :| 0 <= i < |[x] + s| && ([x] + s)[i] == f;
      assert s[i - 1] == f;
    }
  }

  lemma {:induction false} ReliableOnlyHas(log: seq<TFrame>, fids: seq<nat>, f: nat)
    ensures Stands(ReliableOnly(log, fids), f) <==> Stands(fids, f) && f < |log| && IsReliable(log[f])
  {
    if fids != [] {
      ReliableOnlyHas(log, fids[1..], f);
      StandsCons(fids[0], fids[1..], f);
      StandsCons(fids[0], ReliableOnly(log, fids[1..]), f);
      assert [fids[0]] + fids[1..] == fids;
      assert [] + ReliableOnly(log, fids[1..]) == ReliableOnly(log, fids[1..]);
    }
  }

  ghost predicate Distinct(s: seq<nat>) {
    forall i, j :: 0 <= i < j < |s| ==> s[i] != s[j]
  }

  lemma DistinctCons(x: nat, s: seq<nat>)
    requires Distinct(s) && !Stands(s, x)
    ensures Distinct([x] + s)
  {
  }

  lemma DistinctTail(s: seq<nat>)
    requires Distinct(s) && s != []
    ensures Distinct(s[1..]) && !Stands(s[1..], s[0])
  {
  }

  /** Distinct frames have distinct numbers. */
  lemma {:induction false} ReliableOnlyDistinct(log: seq<TFrame>, fids: seq<nat>)
    requires Distinct(fids)
    ensures Distinct(ReliableOnly(log, fids))
  {
    if fids != [] {
      DistinctTail(fids);
      ReliableOnlyDistinct(log, fids[1..]);
      ReliableOnlyHas(log, fids[1..], fids[0]);
      DistinctCons(fids[0], ReliableOnly(log, fids[1..]));
    }
  }

  // ---------- emission ----------

  /** Frames as they wait in the queue: logged, the reliable ones without a number. */
  ghost predicate Fresh(log: seq<TFrame>, ts: seq<TFrame>) {
    forall i :: 0 <= i < |ts| ==> ts[i].fid < |log| && ts[i] == log[ts[i].fid] && (IsReliable(ts[i]) <==> NeedsNumber(ts[i]))
  }

  lemma {:induction false} NewlyIsReliableOnly(log: seq<TFrame>, ts: seq<TFrame>)
    requires Fresh(log, ts)
    ensures Newly(ts) == ReliableOnly(log, Fids(ts))
  {
    if ts != [] {
      assert ts[0] == log[ts[0].fid];
      NewlyIsReliableOnly(log, ts[1..]);
    }
  }

  lemma AllSoundCons(log: seq<TFrame>, nums: seq<nat>, t: TFrame, ts: seq<TFrame>)
    requires Sound(log, nums, t) && AllSound(log, nums, ts)
    ensures AllSound(log, nums, [t] + ts)
  {
  }

  lemma FreshTail(log: seq<TFrame>, ts: seq<TFrame>)
    requires Fresh(log, ts) && ts != []
    ensures Fresh(log, ts[1..])
  {
  }

  lemma FreshHead(log: seq<TFrame>, ts: seq<TFrame>)
    requires Fresh(log, ts) && ts != []
    ensures ts[0].fid < |log| && ts[0] == log[ts[0].fid] && (IsReliable(ts[0]) <==> NeedsNumber(ts[0]))
  {
  }

  /** The numbers from k on were given to these frames. */
  ghost predicate GivenFrom(nums: seq<nat>, k: nat, fids: seq<nat>) {
    k + |fids| <= |nums| && forall j :: 0 <= j < |fids| ==> nums[k + j] == fids[j]
  }

  lemma GivenTail(nums: seq<nat>, k: nat, fid: nat, fids: seq<nat>)
    requires GivenFrom(nums, k, [fid] + fids)
    ensures k < |nums| && nums[k] == fid && GivenFrom(nums, k + 1, fids)
  {
    assert nums[k + 0] == ([fid] + fids)[0];
    forall j | 0 <= j < |fids|
      ensures nums[k + 1 + j] == fids[j]
    {
      assert nums[k + (j + 1)] == ([fid] + fids)[j + 1];
    }
  }

  lemma {:induction false} NumberSoundFrom(log: seq<TFrame>, nums: seq<nat>, k: nat, ts: seq<TFrame>)
    requires Fresh(log, ts) && GivenFrom(nums, k, Newly(ts))
    ensures AllSound(log, nums, Number(ts, k))
    decreases |ts|
  {
    if ts != [] {
      FreshTail(log, ts);
      FreshHead(log, ts);
      if NeedsNumber(ts[0]) {
        GivenTail(nums, k, ts[0].fid, Newly(ts[1..]));
        NumberSoundFrom(log, nums, k + 1, ts[1..]);
        AllSoundCons(log, nums, Assigned(ts[0], k), Number(ts[1..], k + 1));
      } else {
        assert Newly(ts) == Newly(ts[1..]);
        NumberSoundFrom(log, nums, k, ts[1..]);
        AllSoundCons(log, nums, ts[0], Number(ts[1..], k));
      }
    }
  }

  /** Late numbering makes sound frames. */
  lemma NumberSound(log: seq<TFrame>, nums: seq<nat>, ts: seq<TFrame>)
    requires Fresh(log, ts)
    ensures AllSound(log, nums + Newly(ts), Number(ts, |nums|))
  {
    NumberSoundFrom(log, nums + Newly(ts), |nums|, ts);
  }

  lemma {:induction false} NumberKeeps(ts: seq<TFrame>, next: nat)
    requires forall i :: 0 <= i < |ts| ==> !NeedsNumber(ts[i])
    ensures Number(ts, next) == ts && Newly(ts) == []
  {
    if ts != [] {
      NumberKeeps(ts[1..], next);
    }
  }

  predicate HasNumber(ts: seq<TFrame>, n: int) {
    n in ReliableNumbers(ts)
  }

  /** The numbers carried are those of the reliable frames. */
  lemma {:induction false} NumbersCarried(ts: seq<TFrame>, n: int)
    ensures HasNumber(ts, n) <==> exists i :: 0 <= i < |ts| && IsReliable(ts[i]) && ts[i].f.reliableNumber == n
  {
    if ts != [] {
      NumbersCarried(ts[1..], n);
      if HasNumber(ts[1..], n) {
        var i :| 0 <= i < |ts[1..]| && IsReliable(ts[1..][i]) && ts[1..][i].f.reliableNumber == n;
        assert ts[i + 1] == ts[1..][i];
      }
    }
  }

  /** Every new number is carried by the datagram. */
  lemma {:induction false} NewNumbersCarried(ts: seq<TFrame>, next: nat, n: nat)
    requires next <= n < next + |Newly(ts)|
    requires forall i :: 0 <= i < |ts| ==> (IsReliable(ts[i]) <==> NeedsNumber(ts[i]))
    ensures HasNumber(Number(ts, next), n)
    decreases |ts|
  {
    var step := if NeedsNumber(ts[0]) then 1 else 0;
    if !(step == 1 && n == next) {
      NewNumbersCarried(ts[1..], next + step, n);
      assert Number(ts, next)[1..] == Number(ts[1..], next + step);
    }
  }

  /** Tracked frames are sound, each under its own number. */
  ghost predicate ResendInv(log: seq<TFrame>, nums: seq<nat>, resend: map<int, InFlight>) {
    forall n <- resend :: IsReliable(resend[n].t) && resend[n].t.f.reliableNumber == n && Sound(log, nums, resend[n].t)
  }

  lemma {:induction false} TrackKeeps(log: seq<TFrame>, nums: seq<nat>, resend: map<int, InFlight>, ts: seq<TFrame>,
                                      now: real, rto: real)
    requires ResendInv(log, nums, resend) && AllSound(log, nums, ts)
    ensures ResendInv(log, nums, Track(resend, ts, now, rto))
    ensures resend.Keys <= Track(resend, ts, now, rto).Keys
    decreases |ts|
  {
    if ts != [] {
      assert Sound(log, nums, ts[0]);
      TrackKeeps(log, nums, TrackOne(resend, ts[0], now, rto), ts[1..], now, rto);
    }
  }

  lemma ResendGrows(log: seq<TFrame>, nums: seq<nat>, log': seq<TFrame>, nums': seq<nat>, resend: map<int, InFlight>)
    requires ResendInv(log, nums, resend) && log <= log' && nums <= nums'
    ensures ResendInv(log', nums', resend)
  {
    forall n | n in resend
      ensures Sound(log', nums', resend[n].t)
    {
      SoundGrows(log, nums, log', nums', resend[n].t);
    }
  }
}
