/** The enumeration state machine (sricd/sric-enum.c). */
module EnumFsm {
  import opened Bytes
  import opened Encoding

  const DEVICE_HIGH_ADDRESS := 128

  const SYSCMD_RESET: byte := 0x80
  const SYSCMD_TOK_ADVANCE: byte := 0x81
  const SYSCMD_ADDR_ASSIGN: byte := 0x82
  const SYSCMD_ADDR_INFO: byte := 0x83

  const GW_CMD_USE_TOKEN: byte := 0
  const GW_CMD_REQ_TOKEN: byte := 1
  const GW_CMD_HAVE_TOKEN: byte := 2
  const GW_CMD_GEN_TOKEN: byte := 3

  /** Exited stands for the daemon having given up with exit(1). */
  datatype State =
    | Idle | KillingToken | Resetting | Enumerating | SettingAddr | SettingGwAddr
    | AdvancingToken | FetchingClasses | Done | Exited

  datatype EnumEvent =
    | StartEnum | TokenCatchTimeout | BusReset | DevPresent | NewDevAck | TokAtGw | AddrInfoAck

  /** The parts of a received packed frame that are looked at. */
  datatype Reply = Reply(dest: byte, source: byte, payload: seq<byte>) {
    predicate IsAck() { dest / 0x80 % 2 == 1 }
    function From(): byte { source % 0x80 }
  }

  /** `added` holds the device_add calls. */
  datatype Enum = Enum(state: State, next: byte, info: byte, classes: seq<byte>, added: map<nat, byte>,
                       killTimer: bool, resetTimer: bool, resetCount: nat)

  function NoClasses(): seq<byte> { seq(DEVICE_HIGH_ADDRESS, _ => 0) }

  const POWER_ON := Enum(Idle, 2, 2, NoClasses(), map[], false, false, 0)

  /** What the machine does: its new state and the frames it queues. */
  datatype Reaction = Reaction(e: Enum, sent: seq<Message>)

  function Reset(): Message { Message(FRAME_SRIC, 0, [SYSCMD_RESET]) }
  function AddrAssign(a: byte): Message { Message(FRAME_SRIC, 0, [SYSCMD_ADDR_ASSIGN, a]) }
  function TokAdvance(a: byte): Message { Message(FRAME_SRIC, a, [SYSCMD_TOK_ADVANCE]) }
  function AddrInfo(a: byte): Message { Message(FRAME_SRIC, a, [SYSCMD_ADDR_INFO]) }
  function UseToken(use: bool): Message { Message(FRAME_GW_CONF, 1, [GW_CMD_USE_TOKEN, if use then 1 else 0]) }
  function ReqToken(): Message { Message(FRAME_GW_CONF, 1, [GW_CMD_REQ_TOKEN]) }
  function HaveToken(): Message { Message(FRAME_GW_CONF, 1, [GW_CMD_HAVE_TOKEN]) }
  function GenToken(): Message { Message(FRAME_GW_CONF, 1, [GW_CMD_GEN_TOKEN]) }

  predicate IsAssign(m: Message) {
    |m.payload| == 2 && m.payload[0] == SYSCMD_ADDR_ASSIGN && m.kind == FRAME_SRIC
  }

  /** device_add for every address from 2 up to, not including, `end`. */
  function AddedUpTo(classes: seq<byte>, end: nat): map<nat, byte>
    requires end <= |classes|
  {
    map a: nat | 2 <= a < end :: classes[a]
  }

  predicate WellFormed(e: Enum) {
    && |e.classes| == DEVICE_HIGH_ADDRESS
    && 2 <= e.info <= e.next <= DEVICE_HIGH_ADDRESS
    && (e.state == SettingAddr || e.state == SettingGwAddr || e.state == AdvancingToken
      ==> e.next < DEVICE_HIGH_ADDRESS)
  }

  function Fsm(e: Enum, ev: EnumEvent): Reaction
    requires WellFormed(e)
  {
    match (e.state, ev)
    case (Idle, StartEnum) =>
      Reaction(e.(state := KillingToken, killTimer := true), [TokAdvance(0), TokAdvance(0), ReqToken()])
    case (KillingToken, TokenCatchTimeout) =>
      Reaction(e.(state := Resetting, resetTimer := true), [UseToken(false)])
    case (Resetting, BusReset) =>
      Reaction(e.(state := Enumerating), [GenToken(), ReqToken(), HaveToken()])
    case (Enumerating, DevPresent) =>
      if e.next >= DEVICE_HIGH_ADDRESS then Reaction(e.(state := Exited), [])
      else Reaction(e.(state := SettingAddr), [AddrAssign(e.next)])
    case (Enumerating, TokAtGw) =>
      if e.next >= DEVICE_HIGH_ADDRESS then Reaction(e.(state := Exited), [])
      else Reaction(e.(state := SettingGwAddr), [AddrAssign(e.next)])
    case (SettingGwAddr, NewDevAck) =>
      Reaction(e.(state := FetchingClasses, next := e.next + 1, info := 3), [UseToken(true), GenToken(), AddrInfo(2)])
    case (SettingAddr, NewDevAck) =>
      Reaction(e.(state := AdvancingToken), [TokAdvance(e.next)])
    case (AdvancingToken, NewDevAck) =>
      Reaction(e.(state := Enumerating, next := e.next + 1), [HaveToken()])
    case (FetchingClasses, AddrInfoAck) =>
      if e.info == e.next then Reaction(e.(state := Done, added := e.added + AddedUpTo(e.classes, e.next)), [])
      else Reaction(e.(info := e.info + 1), [AddrInfo(e.info)])
    case _ => Reaction(e, [])
  }

  /** sric_enum_rx. */
  function OnReply(e: Enum, r: Reply): Reaction
    requires WellFormed(e)
  {
    if e.state == Enumerating && |r.payload| == 1 && r.IsAck() then
      Fsm(e, if r.payload[0] == 0 then DevPresent else TokAtGw)
    else if e.state == Idle then Reaction(e, [])
    else if r.From() == e.next && r.IsAck() then Fsm(e, NewDevAck)
    else if r.IsAck() && e.state == FetchingClasses && |r.payload| == 1 then
      Fsm(e.(classes := e.classes[r.From() as int := r.payload[0]]), AddrInfoAck)
    else Reaction(e, [])
  }

  /** The timer that sends five resets and then declares the bus reset. */
  function OnResetTimeout(e: Enum): Reaction
    requires WellFormed(e)
  {
    var e1 := e.(resetCount := e.resetCount + 1);
    if e1.resetCount > 5 then Fsm(e1.(resetTimer := false), BusReset)
    else Reaction(e1, [Reset()])
  }

  function OnKillTimeout(e: Enum): Reaction
    requires WellFormed(e)
  {
    Fsm(e.(killTimer := false), TokenCatchTimeout)
  }

  lemma FsmWellFormed(e: Enum, ev: EnumEvent)
    requires WellFormed(e)
    ensures WellFormed(Fsm(e, ev).e)
  {}

  lemma OnReplyWellFormed(e: Enum, r: Reply)
    requires WellFormed(e)
    ensures WellFormed(OnReply(e, r).e)
  {
    hide Fsm;
    FsmWellFormed(e, DevPresent);
    FsmWellFormed(e, TokAtGw);
    FsmWellFormed(e, NewDevAck);
    if |r.payload| == 1 {
      FsmWellFormed(e.(classes := e.classes[r.From() as int := r.payload[0]]), AddrInfoAck);
    }
  }
}
