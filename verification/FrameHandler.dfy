/** What the daemon reads out of a valid frame from the bus (sricd/sric-if.c, proc_rx_frame). */
module FrameHandler {
  import opened Bytes
  import opened Crc16
  import opened Frame
  import opened Encoding
  import opened OutputQueue
  import opened EnumFsm
  import D = Delivery

  type RxFrame = D.RxFrame

  predicate ForDaemon(f: seq<byte>)
    requires |f| >= OVERHEAD
  {
    f[SRIC_DEST] % 0x80 == 1
  }

  predicate IsAck(f: seq<byte>)
    requires |f| >= OVERHEAD
  {
    f[SRIC_DEST] >= 0x80
  }

  /** The parts that the enumeration code looks at. */
  function ReplyOf(f: seq<byte>): Reply
    requires WholeFrame(f)
  {
    Reply(f[SRIC_DEST], f[SRIC_SRC], Payload(f))
  }

  function WithAckBit(a: byte): byte { if a < 0x80 then a + 0x80 else a }

  /** The acknowledgement queued for anything that is not one itself. */
  function Response(f: seq<byte>, id: nat): TxFrame
    requires |f| >= OVERHEAD
  {
    TxFrame(id, FRAME_SRIC, WithAckBit(f[SRIC_SRC]), NoTag, [])
  }

  /** The frame that an application is given: the top bits of the addresses are not part of it. */
  function ForClients(f: seq<byte>, note: byte): RxFrame
    requires WholeFrame(f)
  {
    D.RxFrame(f[SRIC_SRC] % 0x80, f[SRIC_DEST] % 0x80, note, Payload(f))
  }

  /** A note is numbered by its first payload byte; a frame without payload is none. */
  function NoteIn(f: seq<byte>): Option<RxFrame>
    requires WholeFrame(f)
  {
    if f[SRIC_LEN] == 0 then None else Some(ForClients(f, f[SRIC_DATA]))
  }

  /** A frame as a device with address src makes it. */
  function FrameFrom(src: byte, dest: byte, payload: seq<byte>): seq<byte>
    requires |payload| <= PAYLOAD_MAX
  {
    var body := [FRAME_SRIC, dest, src, |payload|] + payload;
    body + [Low(Crc(body)), High(Crc(body))]
  }

  lemma FrameFromIsWhole(src: byte, dest: byte, payload: seq<byte>)
    requires |payload| <= PAYLOAD_MAX
    ensures var f := FrameFrom(src, dest, payload);
      && WholeFrame(f) && Accepts(f) && FrameOf(f) == f && Payload(f) == payload
      && f[SRIC_SRC] == src && f[SRIC_DEST] == dest && f[SRIC_LEN] == |payload|
  {
    var body := [FRAME_SRIC, dest, src, |payload|] + payload;
    var f := FrameFrom(src, dest, payload);
    LowHigh(Crc(body));
    hide Crc, Low, High, Word;
    assert f[..HEADER_SIZE + |payload|] == body;
    assert f[..OVERHEAD + |payload|] == f;
    assert f[SRIC_DATA..SRIC_DATA + |payload|] == payload;
  }

  /** What the enumeration code is handed is what the device put into its frame. */
  lemma ReplyReadBack(src: byte, dest: byte, payload: seq<byte>)
    requires |payload| <= PAYLOAD_MAX
    ensures var f := FrameFrom(src, dest, payload);
      && WholeFrame(f) && ReplyOf(f) == Reply(dest, src, payload) && (IsAck(f) <==> ReplyOf(f).IsAck())
      && (ForDaemon(f) <==> dest == 1 || dest == 0x81)
  {
    FrameFromIsWhole(src, dest, payload);
    hide FrameFrom, Accepts;
  }

  /** A device's answer reaches the client with its sender and payload, and as no note. */
  lemma ResponseReadBack(src: byte, payload: seq<byte>)
    requires |payload| <= PAYLOAD_MAX
    ensures var f := FrameFrom(src, 0x81, payload);
      && WholeFrame(f) && Accepts(f) && FrameOf(f) == f && ForDaemon(f) && IsAck(f)
      && ForClients(f, 0) == D.RxFrame(src % 0x80, 1, 0, payload)
  {
    FrameFromIsWhole(src, 0x81, payload);
    hide FrameFrom, Accepts;
  }

  /** The transmitter waits for exactly those frames that somebody wants an answer to and that are no acks. */
  lemma UnansweredIff(f: TxFrame)
    requires f.Valid()
    ensures f.Unanswered() <==> f.tag == NoTag || IsAck(Raw(f.ToMessage()))
  {
    RawReadBack(f.ToMessage());
    AckBit(f.address);
    hide Raw, WholeFrame, Payload;
  }

  lemma AckBit(a: int)
    ensures a / 128 % 2 == 1 <==> a % 256 >= 0x80
  {
    var high, low := a / 256, a % 256;
    assert a == 256 * high + low;
    assert a / 128 == 2 * high + low / 128;
  }

  /** A note that a device sends to sricd reaches applications with its sender, number and payload,
      and is answered by a frame that is an ack from sricd to that device, and that is itself not waited for. */
  lemma NoteIsAnswered(src: byte, payload: seq<byte>, id: nat)
    requires 0 < |payload| <= PAYLOAD_MAX
    ensures var f := FrameFrom(src, 1, payload);
      var answer := Response(f, id);
      && WholeFrame(f) && Accepts(f) && FrameOf(f) == f && ForDaemon(f) && !IsAck(f)
      && NoteIn(f) == Some(D.RxFrame(src % 0x80, 1, payload[0], payload))
      && answer.Valid() && answer.Unanswered()
      && Raw(answer.ToMessage()) == FrameFrom(1, src % 0x80 + 0x80, [])
      && IsAck(Raw(answer.ToMessage()))
  {
    hide FrameFrom, Accepts, Raw, Response, FrameOf, Payload;
    FrameFromIsWhole(src, 1, payload);
    AnswerIsAck(FrameFrom(src, 1, payload), id);
    FirstOfPayload(FrameFrom(src, 1, payload));
  }

  /** A frame without payload is answered like that too, and is no note. */
  lemma EmptyIsNoNote(src: byte, id: nat)
    ensures var f := FrameFrom(src, 1, []);
      && WholeFrame(f) && Accepts(f) && ForDaemon(f) && !IsAck(f) && NoteIn(f) == None
      && Raw(Response(f, id).ToMessage()) == FrameFrom(1, src % 0x80 + 0x80, [])
  {
    hide FrameFrom, Accepts, Raw, Response, FrameOf, Payload;
    FrameFromIsWhole(src, 1, []);
    AnswerIsAck(FrameFrom(src, 1, []), id);
  }

  lemma FirstOfPayload(f: seq<byte>)
    requires WholeFrame(f) && f[SRIC_LEN] > 0
    ensures Payload(f)[0] == f[SRIC_DATA]
  {
  }

  lemma AnswerIsAck(f: seq<byte>, id: nat)
    requires |f| >= OVERHEAD
    ensures var answer := Response(f, id);
      && answer.Valid() && answer.Unanswered()
      && Raw(answer.ToMessage()) == FrameFrom(1, f[SRIC_SRC] % 0x80 + 0x80, [])
      && IsAck(Raw(answer.ToMessage()))
  {
    hide Crc, Low, High;
    var answer := Response(f, id);
    assert answer.ToMessage() == Message(FRAME_SRIC, f[SRIC_SRC] % 0x80 + 0x80, []);
    assert Body(answer.ToMessage()) == [FRAME_SRIC, f[SRIC_SRC] % 0x80 + 0x80, 1, 0] + [];
  }
}
