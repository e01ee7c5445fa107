/** The frames that go between the daemon and the modelled bus: each side reads what the other one meant. */
module BusFrames {
  import opened Bytes
  import opened Crc16
  import opened Frame
  import opened Encoding
  import opened EnumFsm
  import opened BusModel
  import opened FrameHandler
  import opened OutputQueue
  import opened TxModel
  import opened EnumLink
  import C = EnumCompletes

  /** The bytes that the emulator looks at are the command and the argument. */
  lemma CommandOnWire(m: Message)
    requires m.Valid()
    ensures Raw(m)[SRIC_DATA] == CommandOf(m) && Raw(m)[SRIC_DATA + 1] == ArgumentOf(m) && Raw(m)[SRIC_DEST] == m.dest
  {
    hide Crc, Low, High;
  }

  /** The frame that a device or the gateway makes of an answer. */
  function AnswerFrame(r: Reply): seq<byte>
    requires |r.payload| <= PAYLOAD_MAX
  {
    FrameFrom(r.source, r.dest, r.payload)
  }

  predicate ToDaemon(r: Reply) { r.dest == 0x81 && |r.payload| <= 1 }

  lemma OneToDaemon(d: Device, m: Message)
    requires Carriable(m)
    ensures forall r :: r in OnMessage(d, m).1 ==> ToDaemon(r)
  {
    hide CommandOf, ArgumentOf;
  }

  /** A device answers under the address that it then has; the gateway under the one that it was asked at. */
  lemma AnswersFrom(d: Device, gw: Gateway, m: Message)
    requires Carriable(m)
    ensures forall r :: r in OnMessage(d, m).1 ==> r.source == OnMessage(d, m).0.address % 0x80
    ensures forall r :: r in GatewayCommand(gw, m).1 ==> r.source == m.dest % 0x80
    ensures forall r :: r in GatewayAsDevice(gw, m).1 ==> r.source == GatewayAsDevice(gw, m).0.address % 0x80
  {
    hide CommandOf, ArgumentOf;
  }

  lemma {:induction false} AllToDaemon(ds: seq<Device>, m: Message)
    requires Carriable(m)
    ensures forall r :: r in Broadcast(ds, m).1 ==> ToDaemon(r)
    decreases |ds|
  {
    hide ToDaemon, OnMessage;
    if ds != [] {
      OneToDaemon(ds[0], m);
      AllToDaemon(ds[1..], m);
    }
  }

  lemma GatewayToDaemon(gw: Gateway, m: Message)
    requires Carriable(m)
    ensures forall r :: r in GatewayCommand(gw, m).1 ==> ToDaemon(r)
    ensures forall r :: r in GatewayAsDevice(gw, m).1 ==> ToDaemon(r)
  {
    hide CommandOf, ArgumentOf;
  }

  lemma DeliverToDaemon(b: Bus, m: Message, r: Reply)
    requires Carriable(m) && r in Deliver(b, m).1
    ensures ToDaemon(r)
  {
    AllToDaemon(b.devices, m);
    GatewayToDaemon(b.gw, m);
    hide Broadcast, GatewayCommand, GatewayAsDevice, ToDaemon;
  }

  /** Every answer of the modelled bus comes in a frame that the daemon accepts, takes to be an ack for itself, and
      hands to the enumeration code as exactly that answer. */
  lemma AnswerReadBack(b: Bus, m: Message, r: Reply)
    requires Carriable(m) && r in Deliver(b, m).1
    ensures |r.payload| <= PAYLOAD_MAX
    ensures var f := AnswerFrame(r);
      WholeFrame(f) && Accepts(f) && FrameOf(f) == f && ForDaemon(f) && IsAck(f) && ReplyOf(f) == r
  {
    DeliverToDaemon(b, m, r);
    hide Deliver;
    FrameFromIsWhole(r.source, r.dest, r.payload);
    ReplyReadBack(r.source, r.dest, r.payload);
    hide FrameFrom, Accepts;
  }

  /** So a round of the closed system is what the daemon does with the frame that comes back: with the queued message
      in flight, its answer's frame takes the enumeration code where the round does, and queues frames for what the
      round queues. */
  lemma RoundIsHandled(s: C.System, extra: nat, t: Tx, id: nat)
    requires C.Answered(s) && Consults(t)
    ensures var r := Exchange(s.bus, s.queue[0], extra).1[0];
      && |r.payload| <= PAYLOAD_MAX && WholeFrame(AnswerFrame(r))
      && var heard := ReplyOf(AnswerFrame(r));
      && EnumAfter(t, s.e, heard) == C.Round(s, extra).e
      && var h := AckOf(t, s.e, heard, id);
      && h.Acked? && (h.done <==> C.Round(s, extra).e.state == Done)
      && C.Round(s, extra).queue == s.queue[1..] + Messages(h.pushes)
  {
    var m := s.queue[0];
    var r := Deliver(s.bus, m).1[0];
    AnswerReadBack(s.bus, m, r);
    hide Deliver, OnReply, AnswerFrame, ReplyOf, AdvanceTimes;
    SentValid(s.e, r);
    FramesCarry(OnReply(s.e, r).sent, id);
  }
}
