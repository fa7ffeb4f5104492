// Packets and constants shared by both ends of the transport.
module TransportTypes {
  import opened Common

  const MAX_SBUFFER_SIZE: nat := 10240
  const MAX_RBUFFER_SIZE: nat := 10240
  const MAX_DATA_SIZE: nat := 1024
  const INIT_SWND_SIZE: int := 5
  const INIT_CWND_SIZE: int := 10
  const INIT_SSTHRESH: int := 256
  const MAX_SWND: int := 32767

  // Multiples of MAX_DATA_SIZE, with its value written out.
  function PacketBytes(n: int): int { 1024 * n }

  function PacketsIn(bytes: int): int { bytes / 1024 }

  // The payload length field is |buf|: only its first len bytes are ever used.
  datatype DataPacket = DataPacket(seqNum: int, buf: seq<byte>)

  // rwnd is advertised in packets, not in bytes.
  datatype AckPacket = AckPacket(ack: int, rwnd: int)
}
