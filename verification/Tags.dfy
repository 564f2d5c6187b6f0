/** Message frames with unbounded numbers, and what the code keeps of them. */
module Tags {
  import opened SeqNum
  import opened WireFormat

  /** A frame with unbounded numbers, the message it belongs to (mid) and its
      place among all frames ever queued by the sender (fid).  The code sees
      only WireFrame of it. */
  datatype TFrame = TFrame(fid: nat, mid: nat, f: MessageFrame)

  function WireFrame(f: MessageFrame): MessageFrame {
    f.(reliableNumber := Wire(f.reliableNumber),
       sequencingIndex := Wire(f.sequencingIndex),
       orderingIndex := Wire(f.orderingIndex))
  }

  function WireFrames(ts: seq<TFrame>): (r: seq<MessageFrame>)
    ensures |r| == |ts|
  {
    if ts == [] then [] else [WireFrame(ts[0].f)] + WireFrames(ts[1..])
  }

  lemma {:induction false} WireFramesAt(ts: seq<TFrame>, i: nat)
    requires i < |ts|
    ensures WireFrames(ts)[i] == WireFrame(ts[i].f)
  {
    if i > 0 {
      WireFramesAt(ts[1..], i - 1);
    }
  }
}
