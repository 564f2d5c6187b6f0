/** What the congestion controller hears of ACKs and NAKs, in terms of the
    datagrams that left (_reliability.py:502-552). */
module AckEffects {
  import opened Types
  import opened SeqNum
  import opened Tags
  import opened SenderSpec
  import opened SenderNet
  import opened Sending
  import SenderQueue
  import SenderBytes
  import SenderReach
  import Timers
  import Congestion

  // ---------- one packet ----------

  /** The numbers on record among ns, each where it is first named. */
  function Firsts(history: map<int, Record>, ns: seq<int>): (r: seq<int>)
    ensures forall i :: 0 <= i < |r| ==> r[i] in history
  {
    if ns == [] then []
    else
      var front, n := ns[..|ns| - 1], ns[|ns| - 1];
      Firsts(history, front) + (if n in history && n !in ElementSet(front) then [n] else [])
  }

  function Acks(history: map<int, Record>, ks: seq<int>): seq<Congestion.Event>
    requires forall i :: 0 <= i < |ks| ==> ks[i] in history
  {
    seq(|ks|, i requires 0 <= i < |ks| => Congestion.AckOf(Wire(ks[i]), history[ks[i]].continuous))
  }

  function Trips(history: map<int, Record>, ks: seq<int>, now: real): seq<real>
    requires forall i :: 0 <= i < |ks| ==> ks[i] in history
  {
    seq(|ks|, i requires 0 <= i < |ks| => now - history[ks[i]].sendTime)
  }

  lemma ActsSnoc(history: map<int, Record>, ks: seq<int>, n: int, now: real)
    requires (forall i :: 0 <= i < |ks| ==> ks[i] in history) && n in history
    ensures Acks(history, ks + [n]) == Acks(history, ks) + [Congestion.AckOf(Wire(n), history[n].continuous)]
    ensures Trips(history, ks + [n], now) == Trips(history, ks, now) + [now - history[n].sendTime]
  {
  }

  /** An ACK packet tells the controller of every datagram on record it names, once,
      in the order named: its number, whether it left in continuous mode, and the
      time since it left. */
  lemma {:induction false} HeardExactly(s: Sender, ns: seq<int>, now: real)
    ensures AckEvents(s, ns) == Acks(s.history, Firsts(s.history, ns))
    ensures AckSamples(s, ns, now) == Trips(s.history, Firsts(s.history, ns), now)
    decreases |ns|
  {
    if ns != [] {
      var front, n := ns[..|ns| - 1], ns[|ns| - 1];
      HeardExactly(s, front, now);
      SenderBytes.AckRemovesExactly(s, front);
      var h := AckAll(s, front).history;
      assert n in h <==> n in s.history && n !in ElementSet(front);
      if n in h {
        ActsSnoc(s.history, Firsts(s.history, front), n, now);
      }
    }
  }

  /** A NAK packet that names any datagram on record sets the threshold to half
      the window, in continuous mode and before a cut; otherwise nothing. */
  lemma NakHalves(w: Congestion.Window, w0: Congestion.Window, start: Sender, ns: seq<int>)
    requires Warned(w, w0, start, ns)
    ensures var known := exists i :: 0 <= i < |ns| && ns[i] in start.history;
      w == if known && w0.continuous && !w0.backedOff then w0.(ssThresh := w0.cwnd / 2.0) else w0
  {
    NaksHalve(w0, start, ns);
  }

  lemma {:induction false} NaksHalve(w0: Congestion.Window, start: Sender, ns: seq<int>)
    requires Congestion.Sound(w0) && Congestion.Guarded(w0, NakEvents(start, ns))
    ensures var known := exists i :: 0 <= i < |ns| && ns[i] in start.history;
      Congestion.Run(w0, NakEvents(start, ns))
      == if known && w0.continuous && !w0.backedOff then w0.(ssThresh := w0.cwnd / 2.0) else w0
    decreases |ns|
  {
    if ns != [] {
      var front, n := ns[..|ns| - 1], ns[|ns| - 1];
      assert forall i :: 0 <= i < |front| ==> front[i] == ns[i];
      NakGuarded(w0, start, front);
      NaksHalve(w0, start, front);
      if n in start.history {
        Congestion.RunSnoc(w0, NakEvents(start, front), Congestion.NakOf);
        assert ns[|ns| - 1] in start.history;
      } else {
        assert NakEvents(start, front) + [] == NakEvents(start, front);
        assert forall i :: 0 <= i < |ns| && ns[i] in start.history ==> i < |front|;
      }
    }
  }

  lemma {:induction false} NakGuarded(w0: Congestion.Window, start: Sender, ns: seq<int>)
    requires Congestion.Sound(w0)
    ensures Congestion.Guarded(w0, NakEvents(start, ns))
    decreases |ns|
  {
    if ns != [] {
      NakGuarded(w0, start, ns[..|ns| - 1]);
      var front := NakEvents(start, ns[..|ns| - 1]);
      Congestion.RunSnoc(w0, front, Congestion.NakOf);
      assert front + [] == front;
    }
  }

  // ---------- records over runs ----------

  /** A datagram and the time of the tick it left in. */
  datatype Departure = Departure(p: Packet, at: real)

  function Departures(out: seq<Packet>, at: real): (r: seq<Departure>)
    ensures |r| == |out| && forall i :: 0 <= i < |r| ==> r[i] == Departure(out[i], at)
  {
    seq(|out|, i requires 0 <= i < |out| => Departure(out[i], at))
  }

  ghost function StepDepartures(s: Sender, a: Action, mtu: int): seq<Departure>
    requires Enabled(s, a, mtu)
  {
    if a.Tick? then Departures(Emitted(s, a, mtu), a.now) else []
  }

  ghost function RunDepartures(s: Sender, actions: seq<Action>, mtu: int): seq<Departure>
    requires Shaped(s) && SenderQueue.RunEnabled(s, actions, mtu)
    decreases |actions|
  {
    if actions == [] then []
    else StepDepartures(s, actions[0], mtu) + RunDepartures(Act(s, actions[0], mtu), actions[1..], mtu)
  }

  /** The record of a datagram: when it left, the reliable numbers it carried,
      its mode, and its size in bytes. */
  ghost predicate RecordIs(r: Record, d: Departure) {
    r.sendTime == d.at && r.numbers == ReliableNumbers(d.p.frames) && r.continuous == d.p.continuous
    && r.byteSize == |SenderBytes.Encoded(d.p)|
  }

  /** Datagrams are numbered as they leave, and records tell of them truly. */
  ghost predicate RecordsInv(s: Sender, deps: seq<Departure>) {
    s.sent == |deps| && (forall i :: 0 <= i < |deps| ==> deps[i].p.number == i)
    && forall n <- s.history :: 0 <= n < |deps| && RecordIs(s.history[n], deps[n])
  }

  lemma EmitRecords(s: Sender, ts: seq<TFrame>, more: bool, now: real, rto: real, oldest: int, deps: seq<Departure>)
    requires RecordsInv(s, deps)
    ensures var (s', p) := Emit(s, ts, more, now, rto, oldest);
      RecordsInv(s', deps + [Departure(p, now)])
  {
    var (s', p) := Emit(s, ts, more, now, rto, oldest);
    SenderBytes.EncodedSize(s, ts, more, now, rto, oldest);
    forall n | n in s'.history
      ensures 0 <= n < |deps| + 1 && RecordIs(s'.history[n], (deps + [Departure(p, now)])[n])
    {
      if n != s.sent {
        assert n in s.history && s'.history[n] == s.history[n];
      }
    }
  }

  lemma RecordsSame(s: Sender, s': Sender, deps: seq<Departure>)
    requires RecordsInv(s, deps) && s'.sent == s.sent
    requires forall n <- s'.history :: n in s.history && s'.history[n] == s.history[n]
    ensures RecordsInv(s', deps)
  {
  }

  lemma DeparturesSnoc(out: seq<Packet>, p: Packet, at: real, deps: seq<Departure>)
    ensures deps + Departures(out + [p], at) == deps + Departures(out, at) + [Departure(p, at)]
  {
  }

  lemma TurnRecords(q: Packing, c: Pass, oldest: int, deps: seq<Departure>)
    requires Going(q, c) && RecordsInv(q.s, deps + Departures(q.out, c.now))
    ensures var q' := PackOne(q, c, oldest); RecordsInv(q'.s, deps + Departures(q'.out, c.now))
  {
    var k := Fill(q.rest, c.max, 0);
    var (s, p) := Emit(q.s, q.rest[..k], k < |q.rest|, c.now, c.rto, oldest);
    EmitRecords(q.s, q.rest[..k], k < |q.rest|, c.now, c.rto, oldest, deps + Departures(q.out, c.now));
    DeparturesSnoc(q.out, p, c.now, deps);
    RecordsSame(s, PackOne(q, c, oldest).s, deps + Departures(q.out + [p], c.now));
  }

  lemma {:induction false} PassRecords(p: Packing, c: Pass, olds: seq<int>, deps: seq<Departure>)
    requires Turns(p, c, olds) && p.out == [] && RecordsInv(p.s, deps)
    ensures var q := Packed(p, c, olds); RecordsInv(q.s, deps + Departures(q.out, c.now))
    decreases |olds|
  {
    if olds == [] {
      assert deps + Departures([], c.now) == deps;
    } else {
      PassRecords(p, c, olds[..|olds| - 1], deps);
      TurnRecords(Packed(p, c, olds[..|olds| - 1]), c, olds[|olds| - 1], deps);
    }
  }

  lemma TickRecords(s: Sender, a: Action, mtu: int, deps: seq<Departure>)
    requires Shaped(s) && a.Tick? && Enabled(s, a, mtu) && RecordsInv(s, deps)
    ensures RecordsInv(Act(s, a, mtu), deps + StepDepartures(s, a, mtu))
  {
    var again := Resent(s, a, mtu);
    RecordsSame(s, Resending(s, a).s, deps);
    PassRecords(Resending(s, a), ResendPass(a, mtu), a.olds, deps);
    RenewedRecords(again.s, NewPass(a, mtu), a.newOlds, deps + Departures(again.out, a.now));
    DeparturesBoth(again.out, Renewed(s, a, mtu).out, a.now, deps);
  }

  lemma RenewedRecords(s: Sender, c: Pass, olds: seq<int>, deps: seq<Departure>)
    requires Passes(Drained(s), c, olds) && RecordsInv(s, deps)
    ensures var q := Packed(Drained(s), c, olds); RecordsInv(Finish(q, c), deps + Departures(q.out, c.now))
  {
    var q := Packed(Drained(s), c, olds);
    RecordsSame(s, Drained(s).s, deps);
    PassRecords(Drained(s), c, olds, deps);
    SenderQueue.RequeueOnly(q.s, q.rest);
    RecordsSame(q.s, Finish(q, c), deps + Departures(q.out, c.now));
  }

  lemma DeparturesBoth(a: seq<Packet>, b: seq<Packet>, at: real, deps: seq<Departure>)
    ensures deps + Departures(a, at) + Departures(b, at) == deps + Departures(a + b, at)
  {
  }

  lemma JoinThree(a: seq<Departure>, b: seq<Departure>, c: seq<Departure>)
    ensures a + b + c == a + (b + c) && [] + a == a && a + [] == a
  {
  }

  lemma StepRecords(s: Sender, a: Action, mtu: int, net: Net, deps: seq<Departure>)
    requires SenderOk(s, net) && Enabled(s, a, mtu) && RecordsInv(s, deps)
    ensures RecordsInv(Act(s, a, mtu), deps + StepDepartures(s, a, mtu))
  {
    match a
    case Submit(_, _, _, _) =>
      SubmitRecorded(s, a, mtu, net);
      assert deps + [] == deps;
    case Tick(_, _, _, _, _, _, _) => TickRecords(s, a, mtu, deps);
    case Acked(ns) =>
      SenderReach.AckNoWider(s, ns);
      RecordsSame(s, AckAll(s, ns), deps);
      assert deps + [] == deps;
    case Nakked(ns) =>
      SenderReach.AckNoWider(s, ns);
      RecordsSame(s, NakAll(s, ns), deps);
      assert deps + [] == deps;
  }

  lemma {:induction false} RunRecords(s: Sender, actions: seq<Action>, mtu: int, net: Net, deps: seq<Departure>)
    requires SenderOk(s, net) && SenderQueue.RunEnabled(s, actions, mtu) && mtu > UDP_HEADER_SIZE + 9 && RecordsInv(s, deps)
    ensures RecordsInv(SenderQueue.Run(s, actions, mtu), deps + RunDepartures(s, actions, mtu))
    decreases |actions|
  {
    if actions == [] {
      JoinThree(deps, [], []);
    } else {
      var step, s' := StepDepartures(s, actions[0], mtu), Act(s, actions[0], mtu);
      StepRecords(s, actions[0], mtu, net, deps);
      SenderReach.StepOk(s, actions[0], mtu, net);
      RunRecords(s', actions[1..], mtu, net + FramesOf(Emitted(s, actions[0], mtu)), deps + step);
      JoinThree(deps, step, RunDepartures(s', actions[1..], mtu));
    }
  }

  /** In every run of a new sender datagrams are numbered 0, 1, ... as they leave,
      and every record on file is that of the datagram of its number. */
  lemma RecordsOfRuns(actions: seq<Action>, mtu: int)
    requires Shaped(NewSender()) && SenderQueue.RunEnabled(NewSender(), actions, mtu) && mtu > UDP_HEADER_SIZE + 9
    ensures RecordsInv(SenderQueue.Run(NewSender(), actions, mtu), RunDepartures(NewSender(), actions, mtu))
  {
    Timers.NewIsOk();
    RunRecords(NewSender(), actions, mtu, [], []);
    JoinThree(RunDepartures(NewSender(), actions, mtu), [], []);
  }

  /** The round trips the controller samples from an ACK packet are the times since
      the datagrams it names left, and the modes it hears are those they left in. */
  lemma SamplesAreRoundTrips(s: Sender, deps: seq<Departure>, ns: seq<int>, now: real, i: nat)
    requires RecordsInv(s, deps) && i < |Firsts(s.history, ns)|
    ensures var n := Firsts(s.history, ns)[i];
      0 <= n < |deps|
      && |AckSamples(s, ns, now)| == |AckEvents(s, ns)| == |Firsts(s.history, ns)|
      && AckSamples(s, ns, now)[i] == now - deps[n].at
      && AckEvents(s, ns)[i] == Congestion.AckOf(Wire(deps[n].p.number), deps[n].p.continuous)
  {
    HeardExactly(s, ns, now);
  }
}
