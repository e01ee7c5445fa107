/** Layout of an unescaped frame (sricd/frame.h, sricd/sric-if.c):
    framing byte, destination, source, length, payload, CRC low byte, CRC high byte. */
module Frame {
  import opened Bytes
  import opened Crc16

  const SRIC_DEST := 1
  const SRIC_SRC := 2
  const SRIC_LEN := 3
  const SRIC_DATA := 4
  const HEADER_SIZE := 4
  const OVERHEAD := 6
  const PAYLOAD_MAX := 64

  /** The receiver's test: enough bytes for the announced length, and the CRC matches. */
  predicate Accepts(u: seq<byte>) {
    && |u| >= OVERHEAD
    && var len := u[SRIC_LEN] as int;
    && |u| >= OVERHEAD + len
    && Crc(u[..HEADER_SIZE + len]) == Word(u[SRIC_DATA + len], u[SRIC_DATA + len + 1])
  }

  /** The bytes that proc_rx_frame looks at. */
  function FrameOf(u: seq<byte>): seq<byte>
    requires Accepts(u)
  {
    u[..OVERHEAD + u[SRIC_LEN] as int]
  }

  /** A complete frame: exactly as long as its length byte says. */
  predicate WholeFrame(f: seq<byte>) {
    |f| >= OVERHEAD && |f| == OVERHEAD + f[SRIC_LEN] as int
  }

  function Payload(f: seq<byte>): seq<byte>
    requires WholeFrame(f)
  {
    f[SRIC_DATA..SRIC_DATA + f[SRIC_LEN] as int]
  }
}
