/** The bus as the emulator plays it: a gateway and a ring of devices round which a token moves
    (ostric/token.c, ostric/generic.c, ostric/cmds.c). */
module BusModel {
  import opened Bytes
  import opened Crc16
  import opened Encoding
  import opened EnumFsm

  /** A device: its address (-1 after a reset), whether it holds the token and keeps it when it has it,
      and the class it reports. */
  datatype Device = Device(address: int, has: bool, keep: bool, cls: byte)

  /** The gateway. The emulator's gateway has no address of its own; a real one takes and reports one
      like a device, which is what `address` and `cls` are for. */
  datatype Gateway = Gateway(tokenMode: bool, has: bool, keep: bool, address: int, cls: byte)

  datatype Bus = Bus(gw: Gateway, devices: seq<Device>)

  // ----- The token -----

  /** One client's turn in the rotation: its new state, and whether it puts the token back on the wire. */
  function Juggle(d: Device, onWire: bool): (Device, bool) {
    if d.has && d.keep then (d, false) else (d.(has := onWire), d.has)
  }

  function Rotate(ds: seq<Device>, onWire: bool): (r: (seq<Device>, bool))
    ensures |r.0| == |ds|
    decreases |ds|
  {
    if ds == [] then ([], onWire)
    else
      var (d, w) := Juggle(ds[0], onWire);
      var (rest, out) := Rotate(ds[1..], w);
      ([d] + rest, out)
  }

  function Advance(b: Bus): Bus {
    if b.gw.keep && b.gw.has then b
    else
      var (ds, w) := Rotate(b.devices, b.gw.has);
      Bus(b.gw.(has := w), ds)
  }

  function AdvanceTimes(b: Bus, n: nat): Bus
    decreases n
  {
    if n == 0 then b else AdvanceTimes(Advance(b), n - 1)
  }

  // ----- Messages -----

  function AckFrom(address: int, src: byte): Reply {
    Reply(src % 0x80 + 0x80, address % 0x80, [])
  }

  function DataFrom(address: int, src: byte, b: byte): Reply {
    Reply(src % 0x80 + 0x80, address % 0x80, [b])
  }

  const DIRECTOR: byte := 1

  predicate Carriable(m: Message) { m.Valid() }

  /** The byte after the header: the command, or the first of the CRC in a frame without payload. */
  function CommandOf(m: Message): byte
    requires Carriable(m)
  {
    if m.payload != [] then m.payload[0] else Low(Crc(Body(m)))
  }

  /** The byte after that one. */
  function ArgumentOf(m: Message): byte
    requires Carriable(m)
  {
    if |m.payload| > 1 then m.payload[1] else if |m.payload| == 1 then Low(Crc(Body(m))) else High(Crc(Body(m)))
  }

  /** generic_msg. */
  function OnMessage(d: Device, m: Message): (Device, seq<Reply>)
    requires Carriable(m)
  {
    if m.dest % 0x80 != d.address && m.dest % 0x80 != 0 then (d, [])
    else if CommandOf(m) == SYSCMD_RESET then (d.(address := -1, has := false, keep := true), [])
    else if CommandOf(m) == SYSCMD_TOK_ADVANCE then (d.(keep := false), [AckFrom(d.address, DIRECTOR)])
    else if CommandOf(m) == SYSCMD_ADDR_ASSIGN then
      if d.address != -1 || !d.has then (d, [])
      else (d.(address := ArgumentOf(m) % 0x80), [AckFrom(ArgumentOf(m) % 0x80, DIRECTOR)])
    else if CommandOf(m) == SYSCMD_ADDR_INFO then (d, [DataFrom(d.address, DIRECTOR, d.cls)])
    else (d, [])
  }

  /** bus_command: every client in turn sees the frame. */
  function Broadcast(ds: seq<Device>, m: Message): (r: (seq<Device>, seq<Reply>))
    requires Carriable(m)
    ensures |r.0| == |ds|
    decreases |ds|
  {
    if ds == [] then ([], [])
    else
      var (d, out) := OnMessage(ds[0], m);
      var (rest, more) := Broadcast(ds[1..], m);
      ([d] + rest, out + more)
  }

  /** gateway_command. */
  function GatewayCommand(gw: Gateway, m: Message): (Gateway, seq<Reply>)
    requires Carriable(m)
  {
    var ack := [AckFrom(m.dest, DIRECTOR)];
    if CommandOf(m) == GW_CMD_USE_TOKEN then
      if |m.payload| != 2 then (gw, []) else (gw.(tokenMode := ArgumentOf(m) != 0), ack)
    else if CommandOf(m) == GW_CMD_GEN_TOKEN then (gw.(has := true, keep := false), ack)
    else if CommandOf(m) == GW_CMD_REQ_TOKEN then (gw.(keep := true), ack)
    else if CommandOf(m) == GW_CMD_HAVE_TOKEN then (gw, [DataFrom(m.dest, DIRECTOR, if gw.has then 1 else 0)])
    else (gw, [])
  }

  /** What the real gateway is assumed to add: holding the token and without an address it takes one,
      and it reports its class. */
  function GatewayAsDevice(gw: Gateway, m: Message): (Gateway, seq<Reply>)
    requires Carriable(m)
  {
    if CommandOf(m) == SYSCMD_ADDR_ASSIGN && gw.address == -1 && gw.has then
      (gw.(address := ArgumentOf(m) % 0x80), [AckFrom(ArgumentOf(m) % 0x80, DIRECTOR)])
    else if CommandOf(m) == SYSCMD_ADDR_INFO && m.dest % 0x80 == gw.address then
      (gw, [DataFrom(gw.address, DIRECTOR, gw.cls)])
    else (gw, [])
  }

  /** process_command: gateway frames go to the gateway, bus frames to everybody. */
  function Deliver(b: Bus, m: Message): (Bus, seq<Reply>)
    requires Carriable(m)
  {
    if m.kind == FRAME_GW_CONF then
      var (gw, out) := GatewayCommand(b.gw, m);
      (b.(gw := gw), out)
    else
      var (ds, out) := Broadcast(b.devices, m);
      var (gw, more) := GatewayAsDevice(b.gw, m);
      (Bus(gw, ds), out + more)
  }

  /** One frame off the wire, then at least one advance of the token. */
  function Exchange(b: Bus, m: Message, extra: nat): (Bus, seq<Reply>)
    requires Carriable(m)
  {
    var (b1, out) := Deliver(b, m);
    (AdvanceTimes(b1, 1 + extra), out)
  }
}
