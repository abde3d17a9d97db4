/** TCP packets, reduced to what the state machines read. */
module Packets {
  import opened Common

  /** The flag combinations that become events (lib/src/tcp/states.cpp:14-28). */
  datatype Flags = SYN | SYN_ACK | ACK | FIN | FIN_ACK

  /** The acknowledgment number of a packet that acknowledges nothing. */
  const ACK_DONT_CARE: nat := 0

  datatype Packet = Packet(flags: Flags, seqNum: nat, ackNum: nat, wnd: nat, payload: seq<byte>) {
    /** SYN and FIN count for nothing here: only the payload has a length. */
    function EndExclusive(): nat { seqNum + |payload| }

    predicate Covers(p: int) { seqNum <= p < EndExclusive() }
  }

  /** The window field of a packet has 16 bits. */
  function WndField(wnd: nat): nat { wnd % 0x1_0000 }
}
