/** What every run of the receiver reports: the ACKs and NAKs are those the
    arrivals determine (_reliability.py:567-585, _congestion.py:153-180). */
module ReceiverGaps {
  import opened Types
  import opened Tags
  import opened Windows
  import opened ReceiverSpec
  import Congestion

  /** No number from expected on counts as received. */
  ghost predicate Tidy(r: Receiver) {
    Shaped(r) && r.recent.Valid(RECEIVED_WINDOW_SIZE) && r.recent.base <= r.expected
    && forall n <- r.recent.nums :: n < r.expected
  }

  /** lo, ..., lo + n - 1. */
  function Interval(lo: int, n: nat): set<int> {
    set k | lo <= k < lo + n && InReach(k, lo, n)
  }

  predicate InReach(k: int, lo: int, n: nat) {
    lo <= k < lo + n
  }

  /** The skipped numbers a datagram reports are the whole gap: the filter for
      numbers already received removes none of them. */
  lemma MissingIsGap(r: Receiver, n: int, skipped: nat)
    requires Tidy(r) && Congestion.Got(r.expected, n).1 == Some(skipped)
    ensures Missing(r.recent, n, skipped) == Interval(n - skipped, skipped)
    ensures skipped == if n > r.expected then Min(n - r.expected, Congestion.MAX_NAK) else 0
  {
  }

  // ---------- one datagram ----------

  /** What reading frames leaves alone. */
  predicate SameReports(a: Receiver, b: Receiver) {
    a.expected == b.expected && a.recent == b.recent && a.acks == b.acks && a.naks == b.naks && |a.chans| == |b.chans|
  }

  lemma {:induction false} FramesSameReports(r: Receiver, ts: seq<TFrame>, now: real, timeout: real, victims: seq<int>)
    requires Shaped(r) && |victims| == |ts| && forall t <- ts :: ChannelFits(t)
    ensures SameReports(r, HandleFrames(r, ts, now, timeout, victims))
    decreases |ts|
  {
    if ts != [] {
      assert forall t <- ts[1..] :: t in ts;
      HandleFrameFilter(r, ts[0], now, timeout, victims[0]);
      FilteredSame(r, ts[0]);
      FramesSameReports(HandleFrame(r, ts[0], now, timeout, victims[0]), ts[1..], now, timeout, victims[1..]);
    }
  }

  lemma FilteredSame(r: Receiver, t: TFrame)
    ensures SameReports(r, Filtered(r, t).0)
  {
  }

  /** The numbers acknowledged and reported after datagram n. */
  lemma DataReports(r: Receiver, n: int, ts: seq<TFrame>, now: real, timeout: real, victims: seq<int>)
    requires Tidy(r) && |victims| == |ts| && forall t <- ts :: ChannelFits(t)
    ensures var r' := HandleData(r, n, ts, now, timeout, victims);
      var (expected, skipped) := Congestion.Got(r.expected, n);
      Tidy(r') && r'.expected == expected && r'.recent.base >= r.recent.base
      && r'.acks == (if skipped.Some? then r.acks + {n} else r.acks)
      && r'.naks == (if skipped.Some? then r.naks + Interval(n - skipped.value, skipped.value) else r.naks)
  {
    var (expected, skipped) := Congestion.Got(r.expected, n);
    if skipped.Some? {
      MissingIsGap(r, n, skipped.value);
      var r1 := r.(expected := expected, acks := r.acks + {n}, naks := r.naks + Missing(r.recent, n, skipped.value));
      if !r.recent.Has(n) {
        RecordTidy(r.recent, n, expected);
        FramesSameReports(r1.(recent := Record(r.recent, RECEIVED_WINDOW_SIZE, n)), ts, now, timeout, victims);
      }
    }
  }

  lemma RecordTidy(recent: Recent, n: int, expected: int)
    requires recent.Valid(RECEIVED_WINDOW_SIZE) && recent.base <= expected && n < expected
    requires forall k <- recent.nums :: k < expected
    ensures var after := Record(recent, RECEIVED_WINDOW_SIZE, n);
      after.Valid(RECEIVED_WINDOW_SIZE) && recent.base <= after.base <= expected && forall k <- after.nums :: k < expected
  {
    RecordRemembers(recent, RECEIVED_WINDOW_SIZE, n);
  }

  // ---------- runs ----------

  datatype Event =
    | Arrives(n: int, ts: seq<TFrame>, now: real, timeout: real, victims: seq<int>)
    | Ticks(now: real, timeout: real, sendAcks: bool)

  /** The receiver with the numbers that have left in ACKs and in NAKs, and those
      of the datagrams accepted since ACKs last left. */
  datatype Station = Station(r: Receiver, acked: set<int>, nakked: set<int>, since: set<int>)

  ghost predicate Possible(e: Event) {
    e.Arrives? ==> |e.victims| == |e.ts| && forall t <- e.ts :: ChannelFits(t)
  }

  ghost function Step(x: Station, e: Event): Station
    requires Shaped(x.r) && Possible(e)
  {
    match e
    case Arrives(n, ts, now, timeout, victims) =>
      x.(r := HandleData(x.r, n, ts, now, timeout, victims),
         since := if Congestion.Got(x.r.expected, n).1.Some? then x.since + {n} else x.since)
    case Ticks(now, timeout, sendAcks) =>
      Station(Ticked(x.r, now, timeout, sendAcks), if sendAcks then x.acked + x.r.acks else x.acked,
              x.nakked + x.r.naks, if sendAcks then {} else x.since)
  }

  ghost predicate AllPossible(es: seq<Event>) {
    forall i :: 0 <= i < |es| ==> Possible(es[i])
  }

  lemma StepShaped(x: Station, e: Event)
    requires Shaped(x.r) && Possible(e)
    ensures Shaped(Step(x, e).r)
  {
  }

  ghost function Run(x: Station, es: seq<Event>): Station
    requires Shaped(x.r) && AllPossible(es)
    decreases |es|
  {
    if es == [] then x
    else
      StepShaped(x, es[0]);
      Run(Step(x, es[0]), es[1..])
  }

  /** The datagram numbers that arrive, in order. */
  function Numbers(es: seq<Event>): seq<int> {
    if es == [] then []
    else (if es[0].Arrives? then [es[0].n] else []) + Numbers(es[1..])
  }

  /** Accepted numbers are acknowledged or about to be, and the gaps reported or
      about to be; about to be acknowledged are those accepted since the last ACKs,
      and nothing about to be reported has been reported. */
  ghost predicate Reports(x: Station, g: Congestion.GapState) {
    Tidy(x.r) && g.expected == x.r.expected && g.accepted == x.r.acks + x.acked
    && (forall k :: k in g.nakked <==> k in x.r.naks + x.nakked)
    && x.r.acks == x.since && x.r.naks !! x.nakked
  }

  lemma StepReports(x: Station, e: Event, g: Congestion.GapState)
    requires Reports(x, g) && Congestion.GapInv(g, 0) && Possible(e)
    ensures Reports(Step(x, e), if e.Arrives? then Congestion.Arrive(g, e.n) else g)
  {
    if e.Arrives? {
      DataReports(x.r, e.n, e.ts, e.now, e.timeout, e.victims);
      var (expected, skipped) := Congestion.Got(x.r.expected, e.n);
      if skipped.Some? {
        UptoInterval(e.n - skipped.value, skipped.value);
        NewGapApart(x, g, e.n, skipped.value);
      }
    }
  }

  lemma NewGapApart(x: Station, g: Congestion.GapState, n: int, skipped: nat)
    requires Reports(x, g) && Congestion.GapInv(g, 0) && Congestion.Got(x.r.expected, n).1 == Some(skipped)
    ensures Interval(n - skipped, skipped) !! x.nakked
  {
    forall k | k in Interval(n - skipped, skipped)
      ensures k !in x.nakked
    {
      assert k in x.nakked ==> k in g.nakked && k < g.expected;
    }
  }

  lemma UptoInterval(lo: int, n: nat)
    ensures forall k :: k in Congestion.Upto(lo, n) <==> k in Interval(lo, n)
  {
    forall k | k in Interval(lo, n)
      ensures k in Congestion.Upto(lo, n)
    {
      assert Congestion.Upto(lo, n)[k - lo] == k;
    }
  }

  lemma {:induction false} RunReports(x: Station, es: seq<Event>, g: Congestion.GapState)
    requires Reports(x, g) && Congestion.GapInv(g, 0) && AllPossible(es)
    ensures Shaped(x.r) && Reports(Run(x, es), Congestion.Arrivals(g, Numbers(es)))
    decreases |es|
  {
    if es != [] {
      var g1 := if es[0].Arrives? then Congestion.Arrive(g, es[0].n) else g;
      StepReports(x, es[0], g);
      if es[0].Arrives? {
        Congestion.GapAdds(g, 0, es[0].n);
      }
      RunReports(Step(x, es[0]), es[1..], g1);
      if es[0].Arrives? {
        assert Numbers(es)[1..] == Numbers(es[1..]);
      } else {
        assert Numbers(es) == Numbers(es[1..]);
      }
    }
  }

  const NOTHING := Congestion.GapState(0, {}, [])

  /** In every run the receiver expects one past the highest number it has
      accepted, has acknowledged exactly the accepted numbers, and has reported
      exactly the gaps: each number once, each still missing when it was reported.
      What it is about to acknowledge is what it accepted since the last ACKs. */
  lemma ReportsOfRuns(es: seq<Event>)
    requires AllPossible(es)
    ensures Shaped(NewReceiver())
    ensures var x := Run(Station(NewReceiver(), {}, {}, {}), es);
      var g := Congestion.Arrivals(NOTHING, Numbers(es));
      Reports(x, g) && Congestion.GapInv(g, 0)
  {
    RunReports(Station(NewReceiver(), {}, {}, {}), es, NOTHING);
    Congestion.GapRun(NOTHING, 0, Numbers(es));
  }

  /** The next datagram reports only numbers that were neither accepted nor
      reported before, and exactly the last min(gap, 1000) of the skipped ones. */
  lemma NextGap(x: Station, g: Congestion.GapState, n: int)
    requires Reports(x, g) && Congestion.GapInv(g, 0) && n > x.r.expected && n - x.r.expected <= Congestion.MAX_SKIP
    ensures var d := Min(n - x.r.expected, Congestion.MAX_NAK);
      Missing(x.r.recent, n, d) == Interval(n - d, d)
      && forall k <- Interval(n - d, d) :: k !in x.r.acks + x.acked && k !in x.r.naks + x.nakked
  {
    Congestion.GapAdds(g, 0, n);
    MissingIsGap(x.r, n, Min(n - x.r.expected, Congestion.MAX_NAK));
  }
}
