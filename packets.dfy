/** What the correlation engine sees of the real-time protocol library:
    event codes and packets that have already been received and classified.
    Framing and decoding of packets happen outside the model. */
module Packets {

  /** Event codes a server may announce. The four lifecycle events the
      command tables wait for are named; every other code is `EventOther`.
      `EventNone` is the "no event required" sentinel of a trigger. */
  datatype Event =
    | EventNone
    | EventConnected
    | EventConnectionClosed
    | EventCaptureStarted
    | EventCaptureStopped
    | EventOther(code: nat)

  /** Packet types that the engine receives but ignores. */
  datatype QuietKind =
    | PacketXML
    | PacketData
    | PacketNoMoreData
    | PacketC3DFile
    | PacketDiscover
    | PacketQTMFile
    | PacketNone

  /** The outcome of one non-blocking poll: nothing arrived (the receive call
      returned zero or less), or one classified packet with the accessor value
      the engine reads from it. */
  datatype Packet =
    | NoPacket
    | ErrorPacket(errorText: string)
    | CommandPacket(commandText: string)
    | EventPacket(event: Event)
    | QuietPacket(kind: QuietKind)
}
