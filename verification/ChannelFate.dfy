/** What becomes of every message that reaches a channel (_reliability.py:623-695). */
module ChannelFate {
  import opened SeqNum
  import opened Ordering

  /** No sequenced message of its slot with an index as high has been delivered. */
  ghost predicate Newest(out: seq<Handed>, h: Handed) {
    forall d <- out :: d.oi == h.oi && !d.isOrdered ==> d.sub < h.sub
  }

  /** The highest sequencing index of the current slot is that of a delivered message. */
  ghost predicate SlotInv(c: Channel) {
    c.highest >= 0 ==> exists d <- c.out :: d.oi == c.expected && !d.isOrdered && d.sub == c.highest
  }

  lemma NewerIsNewest(c: Channel, h: Handed, first: int)
    requires Progress(c, first) && SlotInv(c) && WellKeyed(h) && !h.isOrdered && h.oi == c.expected
    ensures Newer(h.sub, c.highest) <==> Newest(c.out, h)
  {
    if c.highest >= 0 {
      var d :| d in c.out && d.oi == c.expected && !d.isOrdered && d.sub == c.highest;
      if h.sub != c.highest {
        if h.sub > c.highest {
          SeqGreaterIsGreater(h.sub, c.highest);
        } else {
          SeqGreaterIsGreater(c.highest, h.sub);
        }
      }
    }
  }

  lemma FlushOneSlot(c: Channel)
    requires HeadDue(c)
    ensures SlotInv(FlushOne(c)) && c.out <= FlushOne(c).out
  {
    var next := FlushOne(c);
    assert c.heap[0].h in next.out;
  }

  lemma {:induction false} FlushSlot(c: Channel)
    requires SlotInv(c)
    ensures SlotInv(Flush(c))
    decreases |c.heap|
  {
    if HeadDue(c) {
      FlushOneSlot(c);
      FlushSlot(FlushOne(c));
    }
  }

  lemma AcceptSlot(c: Channel, h: Handed, cnt: nat)
    requires SlotInv(c)
    ensures SlotInv(Accept(c, h, cnt))
  {
    if h.oi == c.expected {
      if h.isOrdered {
        FlushSlot(Channel(c.expected + 1, -1, c.heap, c.out + [h]));
      } else if Newer(h.sub, c.highest) {
        assert h in (c.out + [h]);
      }
    }
  }

  /** What leaves the heap is delivered. */
  ghost predicate NoneVanish(c: Channel, c': Channel) {
    forall e <- c.heap :: e in c'.heap || e.h in c'.out
  }

  lemma {:induction false} FlushVanishes(c: Channel)
    ensures NoneVanish(c, Flush(c)) && forall d <- c.out :: d in Flush(c).out
    decreases |c.heap|
  {
    if HeadDue(c) {
      var next := FlushOne(c);
      FlushVanishes(next);
      assert c.heap == [c.heap[0]] + c.heap[1..];
      assert c.heap[0].h in next.out;
    }
  }

  /** Late: its slot has passed, or a sequenced message as new has come before it. */
  ghost predicate Late(c: Channel, h: Handed) {
    h.oi < c.expected || (h.oi == c.expected && !h.isOrdered && !Newest(c.out, h))
  }

  /** Every message that reaches a channel meets exactly one fate.  If it is
      late, or ahead of its slot with 8192 buffered, it is dropped and changes
      nothing; ahead of its slot otherwise it is buffered, and nothing else
      changes; in its slot it is delivered next.  What was buffered stays buffered or
      is delivered. */
  lemma FateExactly(c: Channel, h: Handed, cnt: nat, first: int)
    requires ChannelInv(c, first) && SlotInv(c) && Fits(c, h)
    ensures var c' := Accept(c, h, cnt);
      NoneVanish(c, c')
      && if Late(c, h) || (h.oi > c.expected && |c.heap| >= 8192) then c' == c
         else if h.oi > c.expected then
           c' == c.(heap := c'.heap) && |c'.heap| == |c.heap| + 1
           && forall e :: e in c'.heap <==> e in c.heap || e == Entry(h, cnt)
         else |c'.out| > |c.out| && c'.out[..|c.out| + 1] == c.out + [h]
  {
    if h.oi == c.expected {
      if h.isOrdered {
        var next := Channel(c.expected + 1, -1, c.heap, c.out + [h]);
        FlushVanishes(next);
        FlushExtends(next);
      } else {
        NewerIsNewest(c, h, first);
      }
    } else if h.oi > c.expected {
      PushElements(c.heap, Entry(h, cnt));
      PushLength(c.heap, Entry(h, cnt));
    }
  }

  // ---------- over runs ----------

  /** Some message of the run was dropped when it came. */
  ghost predicate Dropped(c: Channel, hs: seq<Handed>, cnt: nat, h: Handed)
    decreases |hs|
  {
    hs != []
    && ((hs[0] == h && (Late(c, h) || (h.oi > c.expected && |c.heap| >= 8192)))
        || Dropped(Accept(c, hs[0], cnt + 1), hs[1..], cnt + 1, h))
  }

  /** The message is buffered or has been delivered. */
  ghost predicate Safe(c: Channel, h: Handed) {
    h in c.out || exists e <- c.heap :: e.h == h
  }

  lemma SafeStays(c: Channel, h: Handed, x: Handed, cnt: nat, first: int)
    requires ChannelInv(c, first) && SlotInv(c) && Fits(c, h) && Safe(c, x)
    ensures Safe(Accept(c, h, cnt), x)
  {
    var c' := Accept(c, h, cnt);
    FateExactly(c, h, cnt, first);
    if x in c.out {
      OutStays(c, h, cnt, x);
    } else {
      var e :| e in c.heap && e.h == x;
      assert e in c'.heap || e.h in c'.out;
    }
  }

  lemma OutStays(c: Channel, h: Handed, cnt: nat, x: Handed)
    requires x in c.out
    ensures x in Accept(c, h, cnt).out
  {
    FlushVanishes(Channel(c.expected + 1, -1, c.heap, c.out + [h]));
    assert x in (c.out + [h]);
  }

  lemma TakenIsSafe(c: Channel, h: Handed, cnt: nat, first: int)
    requires ChannelInv(c, first) && SlotInv(c) && Fits(c, h)
    requires !(Late(c, h) || (h.oi > c.expected && |c.heap| >= 8192))
    ensures Safe(Accept(c, h, cnt), h)
  {
    var c' := Accept(c, h, cnt);
    FateExactly(c, h, cnt, first);
    if h.oi > c.expected {
      assert Entry(h, cnt) in c'.heap;
    } else {
      assert c'.out[|c.out|] == (c.out + [h])[|c.out|] by { assert c'.out[..|c.out| + 1][|c.out|] == c'.out[|c.out|]; }
    }
  }

  lemma {:induction false} SafeForever(c: Channel, hs: seq<Handed>, cnt: nat, first: int, x: Handed)
    requires ChannelInv(c, first) && SlotInv(c) && AllFit(c, hs, cnt) && Safe(c, x)
    ensures Safe(AcceptAll(c, hs, cnt), x)
    decreases |hs|
  {
    if hs != [] {
      SafeStays(c, hs[0], x, cnt + 1, first);
      AcceptKeeps(c, hs[0], cnt + 1, first);
      AcceptSlot(c, hs[0], cnt + 1);
      SafeForever(Accept(c, hs[0], cnt + 1), hs[1..], cnt + 1, first, x);
    }
  }

  /** After any run every message that came is delivered or buffered, unless it
      was late or found the heap full when it came. */
  lemma {:induction false} NothingVanishes(c: Channel, hs: seq<Handed>, cnt: nat, first: int, x: Handed)
    requires ChannelInv(c, first) && SlotInv(c) && AllFit(c, hs, cnt) && x in hs
    ensures Safe(AcceptAll(c, hs, cnt), x) || Dropped(c, hs, cnt, x)
    decreases |hs|
  {
    AcceptKeeps(c, hs[0], cnt + 1, first);
    AcceptSlot(c, hs[0], cnt + 1);
    var c1 := Accept(c, hs[0], cnt + 1);
    if hs[0] == x {
      if !(Late(c, x) || (x.oi > c.expected && |c.heap| >= 8192)) {
        TakenIsSafe(c, x, cnt + 1, first);
        SafeForever(c1, hs[1..], cnt + 1, first, x);
      }
    } else {
      NothingVanishes(c1, hs[1..], cnt + 1, first, x);
    }
  }
}
