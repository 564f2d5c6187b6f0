/** How much a tick sends, and how it fills its datagrams: the window is used up,
    no datagram ends early, and the flags say what is to follow
    (_reliability.py:374-500, 753-835). */
module PassShape {
  import opened Types
  import opened WireFormat
  import opened Tags
  import opened SenderSpec
  import SenderQueue
  import SenderBytes
  import Splitting

  // ---------- the window is used up ----------

  /** A tick stops sending new frames only when none is left or the window has
      no room for another byte. */
  lemma WindowUsedUp(s: Sender, a: Action, mtu: int)
    requires Shaped(s) && a.Tick? && Enabled(s, a, mtu) && mtu > 37
    ensures Act(s, a, mtu).queue == [] || Act(s, a, mtu).unacked as real + 1.0 > a.cwnd
  {
    var p, c := Drained(Resent(s, a, mtu).s), NewPass(a, mtu);
    SenderQueue.PassMoves(p, c, a.newOlds);
    SenderQueue.RequeueOnly(Renewed(s, a, mtu).s, Renewed(s, a, mtu).rest);
  }

  // ---------- datagrams are filled ----------

  /** The frame behind those taken would not have fitted. */
  lemma {:induction false} FillStops(ts: seq<TFrame>, max: int, size: nat)
    ensures var k := Fill(ts, max, size);
      k < |ts| ==> size + FramesSize(ts[..k]) + FrameSize(ts[k].f) > max
    decreases |ts|
  {
    var k := Fill(ts, max, size);
    if k == 0 {
      assert ts[..0] == [];
    } else {
      FillStops(ts[1..], max, size + FrameSize(ts[0].f));
      assert ts[..k][1..] == ts[1..][..k - 1];
    }
  }

  /** The first frame of each datagram would not have fitted the one before it. */
  ghost predicate Tight(out: seq<Packet>, max: int) {
    forall i :: 0 < i < |out| ==> Overflows(out[i - 1], out[i].frames, max)
  }

  predicate Overflows(p: Packet, next: seq<TFrame>, max: int) {
    next != [] && FramesSize(p.frames) + FrameSize(next[0].f) > max
  }

  ghost predicate TightSoFar(p: Packing, max: int) {
    Tight(p.out, max)
    && (p.out != [] && p.rest != [] ==> Overflows(p.out[|p.out| - 1], p.rest, max))
  }

  lemma NumberedSize(ts: seq<TFrame>, next: nat)
    requires ts != []
    ensures Number(ts, next) != [] && FrameSize(Number(ts, next)[0].f) == FrameSize(ts[0].f)
    ensures FramesSize(Number(ts, next)) == FramesSize(ts)
  {
    SenderBytes.NumberSize(ts, next);
  }

  lemma TurnTight(p: Packing, c: Pass, oldest: int)
    requires Going(p, c) && TightSoFar(p, c.max)
    ensures TightSoFar(PackOne(p, c, oldest), c.max)
  {
    var k := Fill(p.rest, c.max, 0);
    var (s, packet) := Emit(p.s, p.rest[..k], k < |p.rest|, c.now, c.rto, oldest);
    FillStops(p.rest, c.max, 0);
    NumberedSize(p.rest[..k], p.s.nextReliable);
    TightSnoc(p.out, packet, c.max);
    assert k < |p.rest| ==> Overflows(packet, p.rest[k..], c.max);
  }

  lemma TightSnoc(out: seq<Packet>, p: Packet, max: int)
    requires Tight(out, max) && (out != [] ==> Overflows(out[|out| - 1], p.frames, max))
    ensures Tight(out + [p], max)
  {
  }

  lemma {:induction false} PassTight(p: Packing, c: Pass, olds: seq<int>)
    requires Turns(p, c, olds) && p.out == []
    ensures TightSoFar(Packed(p, c, olds), c.max)
    decreases |olds|
  {
    if olds != [] {
      PassTight(p, c, olds[..|olds| - 1]);
      TurnTight(Packed(p, c, olds[..|olds| - 1]), c, olds[|olds| - 1]);
    }
  }

  /** In either pass of a tick no datagram ends while the next frame would fit. */
  lemma TickTight(s: Sender, a: Action, mtu: int)
    requires Shaped(s) && a.Tick? && Enabled(s, a, mtu)
    ensures Tight(Resent(s, a, mtu).out, mtu - 37) && Tight(Renewed(s, a, mtu).out, mtu - 37)
  {
    PassTight(Resending(s, a), ResendPass(a, mtu), a.olds);
    PassTight(Drained(Resent(s, a, mtu).s), NewPass(a, mtu), a.newOlds);
  }

  // ---------- the continuous flag ----------

  /** A datagram says that more is to follow exactly if it is not the last of the pass,
      or frames are left over, or frames wait in the send queue. */
  ghost predicate Flagged(p: Packing) {
    forall i :: 0 <= i < |p.out| ==> (p.out[i].continuous <==> i < |p.out| - 1 || p.rest != [] || p.s.queue != [])
  }

  lemma {:induction false} PassFlags(p: Packing, c: Pass, olds: seq<int>)
    requires Turns(p, c, olds) && p.out == []
    ensures Flagged(Packed(p, c, olds)) && Packed(p, c, olds).s.queue == p.s.queue
    decreases |olds|
  {
    if olds != [] {
      PassFlags(p, c, olds[..|olds| - 1]);
      TurnFlags(Packed(p, c, olds[..|olds| - 1]), c, olds[|olds| - 1]);
    }
  }

  lemma TurnFlags(p: Packing, c: Pass, oldest: int)
    requires Going(p, c) && Flagged(p)
    ensures Flagged(PackOne(p, c, oldest)) && PackOne(p, c, oldest).s.queue == p.s.queue
  {
    var q := PackOne(p, c, oldest);
    forall i | 0 <= i < |p.out|
      ensures q.out[i].continuous
    {
      assert q.out[i] == p.out[i] && p.rest != [];
    }
  }

  lemma TickFlags(s: Sender, a: Action, mtu: int)
    requires Shaped(s) && a.Tick? && Enabled(s, a, mtu)
    ensures var again, renewed := Resent(s, a, mtu), Renewed(s, a, mtu);
      (forall i :: 0 <= i < |again.out| ==>
         (again.out[i].continuous <==> i < |again.out| - 1 || again.rest != [] || s.queue != []))
      && forall i :: 0 <= i < |renewed.out| ==>
           (renewed.out[i].continuous <==> i < |renewed.out| - 1 || renewed.rest != [])
  {
    PassFlags(Resending(s, a), ResendPass(a, mtu), a.olds);
    PassFlags(Drained(Resent(s, a, mtu).s), NewPass(a, mtu), a.newOlds);
  }

  // ---------- old records ----------

  /** Records of q are those of p, and of datagrams sent since. */
  ghost predicate OnlyNewer(p: Sender, q: Sender) {
    p.sent <= q.sent && forall n <- q.history :: n < p.sent ==> n in p.history && q.history[n] == p.history[n]
  }

  lemma {:induction false} PassForgets(p: Packing, c: Pass, olds: seq<int>)
    requires Turns(p, c, olds)
    ensures OnlyNewer(p.s, Packed(p, c, olds).s)
    ensures |p.s.history| + |olds| <= 4096 ==>
      p.s.history.Keys <= Packed(p, c, olds).s.history.Keys
      && |Packed(p, c, olds).s.history| <= |p.s.history| + |olds|
    decreases |olds|
  {
    if olds != [] {
      PassForgets(p, c, olds[..|olds| - 1]);
      TurnForgets(Packed(p, c, olds[..|olds| - 1]), c, olds[|olds| - 1]);
    }
  }

  lemma TurnForgets(p: Packing, c: Pass, oldest: int)
    requires Going(p, c)
    ensures var q := PackOne(p, c, oldest);
      OnlyNewer(p.s, q.s)
      && (|p.s.history| < 4096 ==> p.s.history.Keys <= q.s.history.Keys && |q.s.history| <= |p.s.history| + 1)
  {
    if |p.s.history| < 4096 {
      var r := PackOne(p, c, oldest).s.history;
      assert r == p.s.history[p.s.sent := r[p.s.sent]];
      AtMostOneMore(p.s.history, p.s.sent, r[p.s.sent]);
    }
  }

  lemma AtMostOneMore(history: map<int, Record>, n: int, r: Record)
    ensures |history[n := r]| <= |history| + 1
  {
    assert history[n := r].Keys == history.Keys + {n};
    assert |history| == |history.Keys| && |history[n := r]| == |history[n := r].Keys|;
  }

  /** What a full history gives up for a new record is as old as any other. */
  lemma OldestGoes(p: Packing, c: Pass, olds: seq<int>, n: int, k: int)
    requires Turns(p, c, olds) && olds != []
    ensures var before, after := Packed(p, c, olds[..|olds| - 1]).s.history, Packed(p, c, olds).s.history;
      n in before && n !in after && k in before ==> |before| >= 4096 && before[n].sendTime <= before[k].sendTime
  {
  }

  /** A tick forgets every record older than the timeout, and no younger one
      unless the history reaches 4096 records. */
  lemma TickForgets(s: Sender, a: Action, mtu: int, n: int)
    requires Shaped(s) && a.Tick? && Enabled(s, a, mtu) && n in s.history && n < s.sent
    ensures a.now - s.history[n].sendTime > a.timeout ==> n !in Act(s, a, mtu).history
    ensures a.now - s.history[n].sendTime <= a.timeout && |s.history| + |a.olds| + |a.newOlds| <= 4096 ==>
      n in Act(s, a, mtu).history
  {
    var again, renewed := Resent(s, a, mtu), Renewed(s, a, mtu);
    PassForgets(Resending(s, a), ResendPass(a, mtu), a.olds);
    PassForgets(Drained(again.s), NewPass(a, mtu), a.newOlds);
    SenderQueue.RequeueOnly(renewed.s, renewed.rest);
    FewerLeft(s.history, Stale(s.history, a.now, a.timeout).Keys);
  }

  lemma FewerLeft(history: map<int, Record>, gone: set<int>)
    ensures |history - gone| <= |history|
  {
    assert (history - gone).Keys + (history.Keys * gone) == history.Keys;
    assert |history| == |history.Keys| && |history - gone| == |(history - gone).Keys|;
  }

  // ---------- splitting ----------

  lemma {:induction false} FullPieces(data: Bytes, k: nat)
    requires k > 0 && data != []
    ensures Splitting.Pieces(data, k) != []
    ensures forall i :: 0 <= i < |Splitting.Pieces(data, k)| - 1 ==> |Splitting.Pieces(data, k)[i]| == k
    ensures |data| % k == 0 ==> |Splitting.Pieces(data, k)[|Splitting.Pieces(data, k)| - 1]| == k
    decreases |data|
  {
    var m := Splitting.LastPiece(|data|, k);
    Splitting.LastStart(|data|, k);
    WholeMultiple((|data| - 1) / k, m, k, |data|);
    if m > 0 {
      FullPieces(data[..m], k);
    } else {
      assert data[..m] == [];
    }
  }

  lemma WholeMultiple(j: nat, m: nat, k: nat, n: nat)
    requires k > 0 && m == j * k && m < n <= m + k
    ensures m % k == 0 && (n % k == 0 ==> n - m == k)
  {
    assert m % k == 0 by { Multiple(j, k); }
    if n < m + k {
      assert n == j * k + (n - m);
      Remainder(n, j, n - m, k);
    }
  }

  lemma Multiple(j: nat, k: nat)
    requires k > 0
    ensures j * k % k == 0
  {
    Remainder(j * k, j, 0, k);
  }

  lemma Remainder(n: nat, j: nat, r: nat, k: nat)
    requires k > 0 && n == j * k + r && r < k
    ensures n % k == r
  {
    var q := n / k;
    assert n == q * k + n % k;
    if q < j {
      Splitting.NextMultiple(j, q, k);
    } else if q > j {
      Splitting.NextMultiple(q, j, k);
    }
  }

  /** A message stays whole exactly when it is no longer than mtu - 60, or 64 if
      that is less; otherwise every piece but the last has that length, and an
      unreliable mode becomes the reliable one of its kind. */
  lemma SplitExactly(s: Sender, data: Bytes, rel: Reliability, ch: nat, mtu: int)
    requires Shaped(s) && ch < NUMBER_OF_ORDERED_STREAMS
    ensures var m, limit := NewMessage(s, data, rel, ch, mtu), Max(mtu - 60, 64);
      if |data| <= limit then m.pieces == [data] && m.rel == rel && m.splitId == 0
      else
        |m.pieces| > 1 && (forall i :: 0 <= i < |m.pieces| - 1 ==> |m.pieces[i]| == limit)
        && 0 < |m.pieces[|m.pieces| - 1]| <= limit && m.splitId == s.nextSplit % 65536
        && m.rel.IsReliable() && m.rel.IsOrdered() == rel.IsOrdered() && m.rel.IsSequenced() == rel.IsSequenced()
        && (rel.IsReliable() ==> m.rel == rel)
  {
    var limit := MaxPayload(mtu);
    if |data| > limit {
      Splitting.PiecesJoin(data, limit);
      FullPieces(data, limit);
      TwoOrMore(|data|, limit);
    }
  }

  lemma TwoOrMore(n: nat, k: nat)
    requires 0 < k < n
    ensures (n - 1) / k + 1 > 1
  {
    assert n - 1 == (n - 1) / k * k + (n - 1) % k;
  }
}
