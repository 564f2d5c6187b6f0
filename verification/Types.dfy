/** Values shared by all layers. */
module Types {

  type byte = x: int | 0 <= x < 256
  type Bytes = seq<byte>

  datatype Option<+T> = None | Some(value: T) {
    predicate IsFailure() {
      None?
    }
    function PropagateFailure<U>(): Option<U>
      requires None?
    {
      None
    }
    function Extract(): T
      requires Some?
    {
      value
    }
  }

  /** The eight delivery modes, in the order of their three-bit codes. */
  datatype Reliability =
    | UNRELIABLE
    | UNRELIABLE_SEQUENCED
    | RELIABLE
    | RELIABLE_ORDERED
    | RELIABLE_SEQUENCED
    | UNRELIABLE_WITH_ACK_RECEIPT
    | RELIABLE_WITH_ACK_RECEIPT
    | RELIABLE_ORDERED_WITH_ACK_RECEIPT
  {
    predicate IsReliable() {
      RELIABLE? || RELIABLE_SEQUENCED? || RELIABLE_ORDERED? || RELIABLE_WITH_ACK_RECEIPT?
      || RELIABLE_ORDERED_WITH_ACK_RECEIPT?
    }

    predicate IsSequenced() {
      UNRELIABLE_SEQUENCED? || RELIABLE_SEQUENCED?
    }

    predicate IsOrdered() {
      IsSequenced() || RELIABLE_ORDERED? || RELIABLE_ORDERED_WITH_ACK_RECEIPT?
    }

    function Code(): (c: nat)
      ensures c < 8 && FromCode(c) == this
    {
      match this
      case UNRELIABLE => 0
      case UNRELIABLE_SEQUENCED => 1
      case RELIABLE => 2
      case RELIABLE_ORDERED => 3
      case RELIABLE_SEQUENCED => 4
      case UNRELIABLE_WITH_ACK_RECEIPT => 5
      case RELIABLE_WITH_ACK_RECEIPT => 6
      case RELIABLE_ORDERED_WITH_ACK_RECEIPT => 7
    }

    static function FromCode(c: nat): Reliability
      requires c < 8
    {
      [UNRELIABLE, UNRELIABLE_SEQUENCED, RELIABLE, RELIABLE_ORDERED, RELIABLE_SEQUENCED,
       UNRELIABLE_WITH_ACK_RECEIPT, RELIABLE_WITH_ACK_RECEIPT, RELIABLE_ORDERED_WITH_ACK_RECEIPT][c]
    }

    /** ACK_RECEIPT variants travel as their base mode. */
    function Base(): Reliability {
      match this
      case UNRELIABLE_WITH_ACK_RECEIPT => UNRELIABLE
      case RELIABLE_WITH_ACK_RECEIPT => RELIABLE
      case RELIABLE_ORDERED_WITH_ACK_RECEIPT => RELIABLE_ORDERED
      case _ => this
    }
  }

  const UDP_HEADER_SIZE := 28
  const NUMBER_OF_ORDERED_STREAMS := 32
  const DATAGRAM_MESSAGE_ID_ARRAY_LENGTH := 512
  const MAX_SPLIT_PACKET_COUNT := 65536
  const MAX_SPLIT_TRACKERS := 512
  const MAX_ORDERING_HEAP_SIZE := 8192
  const MAX_RECEIVE_QUEUE_SIZE := 16384
  const MAX_RESEND_BUFFER_SIZE := 4096
  const MAX_DATAGRAM_HISTORY_SIZE := 4096
  const RECEIVED_WINDOW_SIZE := 512

  function Min(a: int, b: int): int {
    if a <= b then a else b
  }

  function Max(a: int, b: int): int {
    if a >= b then a else b
  }

  /** Some member of a nonempty set. */
  ghost function Any<T>(s: set<T>): (x: T)
    requires s != {}
    ensures x in s
  {
    var x :| x in s;
    x
  }

  /** A nonempty set has a member. */
  lemma Pick<T>(s: set<T>) returns (x: T)
    requires s != {}
    ensures x in s
  {
    x :| x in s;
  }
}
