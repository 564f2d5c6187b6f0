/** The numbers `send` gives to ordered and sequenced messages
    (_reliability.py:273-307, 753-772). */
module ChannelKeys {
  import opened Types
  import opened SenderSpec
  import opened SenderNet
  import SenderQueue
  import SenderInv

  predicate OrderedOn(m: Message, ch: nat) {
    m.ch == ch && m.rel.IsOrdered() && !m.rel.IsSequenced()
  }

  predicate SequencedOn(m: Message, ch: nat) {
    m.ch == ch && m.rel.IsSequenced()
  }

  /** How many ordered messages were sent on the channel. */
  function OrderedCount(msgs: seq<Message>, ch: nat): nat {
    if msgs == [] then 0 else OrderedCount(msgs[..|msgs| - 1], ch) + (if OrderedOn(msgs[|msgs| - 1], ch) then 1 else 0)
  }

  /** How many sequenced messages were sent on the channel since its last ordered one. */
  function SequencedSince(msgs: seq<Message>, ch: nat): nat {
    if msgs == [] || OrderedOn(msgs[|msgs| - 1], ch) then 0
    else SequencedSince(msgs[..|msgs| - 1], ch) + (if SequencedOn(msgs[|msgs| - 1], ch) then 1 else 0)
  }

  ghost predicate CountersAre(s: Sender) {
    Shaped(s)
    && forall ch: nat :: ch < NUMBER_OF_ORDERED_STREAMS ==>
         s.nextOrdering[ch] == OrderedCount(s.msgs, ch) && s.nextSequencing[ch] == SequencedSince(s.msgs, ch)
  }

  /** The key of the message sent after these. */
  predicate KeyIs(m: Message, before: seq<Message>) {
    (m.rel.IsOrdered() ==> m.oi == OrderedCount(before, m.ch))
    && (m.rel.IsSequenced() ==> m.sub == SequencedSince(before, m.ch))
  }

  ghost predicate KeysAre(msgs: seq<Message>) {
    forall mid :: 0 <= mid < |msgs| ==> KeyIs(msgs[mid], msgs[..mid])
  }

  ghost predicate Counted(s: Sender) {
    CountersAre(s) && KeysAre(s.msgs)
  }

  lemma KeysSnoc(msgs: seq<Message>, m: Message)
    requires KeysAre(msgs) && KeyIs(m, msgs)
    ensures KeysAre(msgs + [m])
  {
    forall mid | 0 <= mid < |msgs + [m]|
      ensures KeyIs((msgs + [m])[mid], (msgs + [m])[..mid])
    {
      assert mid < |msgs| ==> (msgs + [m])[..mid] == msgs[..mid];
      assert (msgs + [m])[..|msgs|] == msgs;
    }
  }

  lemma AcceptedCounted(s: Sender, data: Bytes, rel: Reliability, ch: nat, mtu: int)
    requires Counted(s) && ch < NUMBER_OF_ORDERED_STREAMS
    ensures Counted(Accepted(s, NewMessage(s, data, rel, ch, mtu)))
  {
    var m := NewMessage(s, data, rel, ch, mtu);
    var s' := Accepted(s, m);
    KeysSnoc(s.msgs, m);
    assert (s.msgs + [m])[..|s.msgs|] == s.msgs;
  }

  lemma CountedSame(s: Sender, s': Sender)
    requires Counted(s) && s'.msgs == s.msgs && s'.nextOrdering == s.nextOrdering && s'.nextSequencing == s.nextSequencing
    requires Shaped(s')
    ensures Counted(s')
  {
  }

  lemma SubmitCounted(s: Sender, a: Action, mtu: int)
    requires Counted(s) && a.Submit? && Enabled(s, a, mtu)
    ensures Counted(Act(s, a, mtu))
  {
    if 0 <= a.ch < NUMBER_OF_ORDERED_STREAMS {
      var m := NewMessage(s, a.data, a.rel, a.ch, mtu);
      AcceptedCounted(s, a.data, a.rel, a.ch, mtu);
      SenderInv.EnqueueFromLog(Accepted(s, m), |s.msgs|, m, 0, a.priority);
      CountedSame(Accepted(s, m), Act(s, a, mtu));
    }
  }

  lemma StepCounted(s: Sender, a: Action, mtu: int)
    requires Counted(s) && Enabled(s, a, mtu) && Shaped(Act(s, a, mtu))
    ensures Counted(Act(s, a, mtu))
  {
    match a
    case Submit(_, _, _, _) => SubmitCounted(s, a, mtu);
    case Tick(_, _, _, _, _, _, _) =>
      TickFields(s, a, mtu);
      CountedSame(s, Act(s, a, mtu));
    case Acked(ns) =>
      AckKeepsRest(s, ns);
      CountedSame(s, Act(s, a, mtu));
    case Nakked(ns) =>
      AckKeepsRest(s, ns);
      CountedSame(s, Act(s, a, mtu));
  }

  lemma {:induction false} RunCounted(s: Sender, actions: seq<Action>, mtu: int)
    requires Counted(s) && SenderQueue.RunEnabled(s, actions, mtu)
    ensures Counted(SenderQueue.Run(s, actions, mtu))
    decreases |actions|
  {
    if actions != [] {
      StepCounted(s, actions[0], mtu);
      RunCounted(Act(s, actions[0], mtu), actions[1..], mtu);
    }
  }

  /** In every run of a new sender a message's ordering index is the number of
      ordered messages sent on its channel before it, and its sequencing index
      that of the sequenced ones since the last of these. */
  lemma KeysOfRuns(actions: seq<Action>, mtu: int)
    requires Shaped(NewSender()) && SenderQueue.RunEnabled(NewSender(), actions, mtu)
    ensures KeysAre(SenderQueue.Run(NewSender(), actions, mtu).msgs)
  {
    RunCounted(NewSender(), actions, mtu);
  }
}
