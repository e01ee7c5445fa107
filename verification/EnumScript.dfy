/** Everything that the enumeration code has sent can be told from its state (sricd/sric-enum.c). */
module EnumScript {
  import opened Bytes
  import opened Encoding
  import opened EnumFsm
  import opened EnumRuns
  import B = BusModel

  function ResetsSent(n: nat): seq<Message> {
    if n == 0 then [] else ResetsSent(n - 1) + [Reset()]
  }

  /** What each of the addresses below `end` took: the address is assigned, the token passed on, and asked for. */
  function Given(end: nat): seq<Message>
    requires end <= 256
  {
    if end <= 2 then [] else Given(end - 1) + [AddrAssign(end - 1), TokAdvance(end - 1), HaveToken()]
  }

  function Asked(end: nat): seq<Message>
    requires end <= 256
  {
    if end <= 2 then [] else Asked(end - 1) + [AddrInfo(end - 1)]
  }

  const KILL: seq<Message> := [TokAdvance(0), TokAdvance(0), ReqToken()]

  /** Until the bus is reset: the token is caught, the gateway told not to wait for it, and `resets` resets are sent. */
  function Opening(resets: nat): seq<Message> { KILL + [UseToken(false)] + ResetsSent(resets) }

  /** From then on a new token goes round. */
  function Round(): seq<Message> { Opening(5) + [GenToken(), ReqToken(), HaveToken()] }

  function Script(e: Enum): seq<Message>
    requires WellFormed(e)
  {
    match e.state
    case Idle => []
    case KillingToken => KILL
    case Resetting => Opening(e.resetCount)
    case Enumerating => Round() + Given(e.next)
    case Exited => Round() + Given(e.next)
    case SettingAddr => Round() + Given(e.next) + [AddrAssign(e.next)]
    case SettingGwAddr => Round() + Given(e.next) + [AddrAssign(e.next)]
    case AdvancingToken => Round() + Given(e.next) + [AddrAssign(e.next), TokAdvance(e.next)]
    case FetchingClasses => Fetched(e.next - 1, e.info)
    case Done => Fetched(e.next - 1, e.info)
  }

  /** The last address is the gateway's; then tokens are in use, and the classes are asked for one by one. */
  function Fetched(last: byte, info: byte): seq<Message> {
    Round() + Given(last) + [AddrAssign(last), UseToken(true), GenToken()] + Asked(info)
  }

  /** What else is true in each state. */
  predicate InPhase(e: Enum) {
    && (e.state == Resetting ==> e.resetTimer && e.resetCount <= 5 && !e.killTimer)
    && (e.state == Idle ==> !e.killTimer && !e.resetTimer && e.resetCount == 0)
    && (e.state == KillingToken ==> e.resetCount == 0 && !e.resetTimer)
    && (e.state != Idle && e.state != KillingToken && e.state != Resetting ==> !e.killTimer && !e.resetTimer)
    && (e.state == FetchingClasses || e.state == Done ==> e.next >= 3 && e.info >= 3)
    && (e.state == Idle || e.state == KillingToken || e.state == Resetting ==> e.next == 2)
  }

  /** What the machine does next keeps to the script. */
  predicate KeepsTo(e: Enum, x: Reaction)
    requires WellFormed(e)
  {
    WellFormed(x.e) && InPhase(x.e) && Script(e) + x.sent == Script(x.e)
  }

  lemma OffersKeep(e: Enum, ev: EnumEvent)
    requires WellFormed(e) && InPhase(e) && e.state == Enumerating && (ev == DevPresent || ev == TokAtGw)
    ensures KeepsTo(e, Fsm(e, ev))
  {
    hide Round, Given, Asked, AddedUpTo;
    assert Script(e) + [] == Script(e);
  }

  lemma TakenKeeps(e: Enum)
    requires WellFormed(e) && InPhase(e) && e.state == SettingAddr
    ensures KeepsTo(e, Fsm(e, NewDevAck))
  {
    hide Round, Given, Asked, AddedUpTo;
    var before := Round() + Given(e.next);
    assert before + [AddrAssign(e.next)] + [TokAdvance(e.next)] == before + [AddrAssign(e.next), TokAdvance(e.next)];
  }

  lemma ReleasedKeeps(e: Enum)
    requires WellFormed(e) && InPhase(e) && e.state == AdvancingToken
    ensures KeepsTo(e, Fsm(e, NewDevAck))
  {
    hide Round, Given, Asked, AddedUpTo;
    GivenMore(Round() + Given(e.next), e.next);
  }

  lemma GatewayKeeps(e: Enum)
    requires WellFormed(e) && InPhase(e) && e.state == SettingGwAddr
    ensures KeepsTo(e, Fsm(e, NewDevAck))
  {
    FirstAsked(e.next);
    hide Round, Given, Fetched, AddedUpTo;
  }

  lemma FirstAsked(last: byte)
    ensures Fetched(last, 3) == Round() + Given(last) + [AddrAssign(last)] + [UseToken(true), GenToken(), AddrInfo(2)]
  {
    assert Asked(2) == [] && Asked(3) == Asked(2) + [AddrInfo(2)];
    hide Round, Given, Asked;
  }

  lemma GivenMore(before: seq<Message>, a: byte)
    requires 2 <= a < 255 && before == Round() + Given(a)
    ensures before + [AddrAssign(a), TokAdvance(a)] + [HaveToken()] == Round() + Given(a + 1)
  {
    hide Round;
    assert Given(a + 1) == Given(a) + [AddrAssign(a), TokAdvance(a), HaveToken()];
    assert before + [AddrAssign(a), TokAdvance(a)] + [HaveToken()]
        == before + [AddrAssign(a), TokAdvance(a), HaveToken()];
  }

  lemma ClassKeeps(e: Enum)
    requires WellFormed(e) && InPhase(e) && e.state == FetchingClasses
    ensures KeepsTo(e, Fsm(e, AddrInfoAck))
  {
    if e.info == e.next {
      hide Fetched, AddedUpTo;
      assert Script(e) + [] == Script(e);
    } else {
      QueryKeeps(e);
    }
  }

  lemma QueryKeeps(e: Enum)
    requires WellFormed(e) && InPhase(e) && e.state == FetchingClasses && e.info < e.next
    ensures KeepsTo(e, Fsm(e, AddrInfoAck))
  {
    var x := Reaction(e.(info := e.info + 1), [AddrInfo(e.info)]);
    assert Fsm(e, AddrInfoAck) == x;
    hide Fsm;
    OneMoreAsked(e.next - 1, e.info);
    hide Fetched, AddrInfo;
    assert Script(e) == Fetched(e.next - 1, e.info);
    assert Script(x.e) == Fetched(e.next - 1, e.info + 1);
    hide Script;
  }

  lemma OneMoreAsked(last: byte, info: byte)
    requires 2 <= info < 255
    ensures Fetched(last, info + 1) == Fetched(last, info) + [AddrInfo(info)]
  {
    assert Asked(info + 1) == Asked(info) + [AddrInfo(info)];
    hide Asked, Round, Given, AddrInfo;
    ConcatAssoc(Round() + Given(last) + [AddrAssign(last), UseToken(true), GenToken()], Asked(info), [AddrInfo(info)]);
  }

  lemma SameScript(e: Enum, classes: seq<byte>)
    requires WellFormed(e) && InPhase(e) && |classes| == |e.classes|
    ensures var e' := e.(classes := classes); WellFormed(e') && InPhase(e') && Script(e') == Script(e)
  {
    hide Round, Given, Asked, Opening;
  }

  /** The events that mean something in each state. */
  predicate Matters(e: Enum, ev: EnumEvent) {
    match e.state
    case Enumerating => ev == DevPresent || ev == TokAtGw
    case SettingAddr => ev == NewDevAck
    case AdvancingToken => ev == NewDevAck
    case SettingGwAddr => ev == NewDevAck
    case FetchingClasses => ev == AddrInfoAck
    case _ => false
  }

  lemma NothingSent(e: Enum, ev: EnumEvent)
    requires WellFormed(e) && ev in {DevPresent, TokAtGw, NewDevAck, AddrInfoAck} && !Matters(e, ev)
    ensures Fsm(e, ev) == Reaction(e, [])
  {}

  lemma EventStep(e: Enum, ev: EnumEvent)
    requires WellFormed(e) && InPhase(e) && ev in {DevPresent, TokAtGw, NewDevAck, AddrInfoAck}
    ensures KeepsTo(e, Fsm(e, ev))
  {
    if !Matters(e, ev) {
      NothingSent(e, ev);
      assert Script(e) + [] == Script(e);
    } else {
      hide Fsm, Script, InPhase, WellFormed;
      match e.state
      case Enumerating => OffersKeep(e, ev);
      case SettingAddr => TakenKeeps(e);
      case AdvancingToken => ReleasedKeeps(e);
      case SettingGwAddr => GatewayKeeps(e);
      case FetchingClasses => ClassKeeps(e);
    }
  }

  lemma ReplyStep(e: Enum, r: Reply)
    requires WellFormed(e) && InPhase(e)
    ensures KeepsTo(e, OnReply(e, r))
  {
    assert Script(e) + [] == Script(e);
    hide Fsm, Script, InPhase;
    EventStep(e, DevPresent);
    EventStep(e, TokAtGw);
    EventStep(e, NewDevAck);
    if e.state == FetchingClasses && |r.payload| == 1 {
      var classes := e.classes[r.From() as int := r.payload[0]];
      SameScript(e, classes);
      EventStep(e.(classes := classes), AddrInfoAck);
    }
  }

  lemma TimerSteps(e: Enum, i: Input)
    requires WellFormed(e) && InPhase(e) && Possible(e, i) && !i.Received?
    ensures KeepsTo(e, React(e, i))
  {
    ReactWellFormed(e, i);
    assert Given(2) == [] && Round() + [] == Round() && ResetsSent(0) == [];
    hide Given, Asked, AddedUpTo;
    match i
    case Start =>
    case KillTimeout => assert KILL + [UseToken(false)] + [] == KILL + [UseToken(false)];
    case ResetTimeout =>
      assert ResetsSent(e.resetCount + 1) == ResetsSent(e.resetCount) + [Reset()];
      hide ResetsSent;
      ConcatAssoc(KILL + [UseToken(false)], ResetsSent(e.resetCount), [Reset()]);
  }

  lemma ScriptStep(e: Enum, i: Input)
    requires WellFormed(e) && InPhase(e) && Possible(e, i)
    ensures KeepsTo(e, React(e, i))
  {
    if i.Received? {
      ReplyStep(e, i.r);
    } else {
      TimerSteps(e, i);
    }
    hide OnReply, Script, InPhase, WellFormed, Fsm;
  }

  lemma {:induction false} RunScript(e: Enum, inputs: seq<Input>)
    requires WellFormed(e) && InPhase(e) && LegalRun(e, inputs)
    ensures var r := After(e, inputs); InPhase(r.e) && Script(e) + r.sent == Script(r.e)
    decreases |inputs|
  {
    if inputs == [] {
      assert Script(e) + [] == Script(e);
    } else {
      var x := React(e, inputs[0]);
      ScriptStep(e, inputs[0]);
      hide React, Script, InPhase, WellFormed, Possible;
      RunScript(x.e, inputs[1..]);
      ConcatAssoc(Script(e), x.sent, After(x.e, inputs[1..]).sent);
    }
  }

  /** Whatever the bus and the timers do, everything sent since power-on is the script of the state reached: which
      messages, with which contents, in which order. */
  lemma SentIsScript(inputs: seq<Input>)
    requires LegalRun(POWER_ON, inputs)
    ensures After(POWER_ON, inputs).sent == Script(After(POWER_ON, inputs).e)
  {
    hide After, LegalRun, Script;
    RunScript(POWER_ON, inputs);
    assert Script(POWER_ON) == [] by {
      NothingAtFirst();
    }
    assert [] + After(POWER_ON, inputs).sent == After(POWER_ON, inputs).sent;
  }

  lemma NothingAtFirst()
    ensures Script(POWER_ON) == []
  {}

  // ----- The gateway's mode -----

  /** What a gateway makes of the frames for it among those sent, if it gets them all. */
  function Told(gw: B.Gateway, ms: seq<Message>): B.Gateway
    requires forall m :: m in ms ==> m.Valid()
  {
    if ms == [] then gw
    else
      var before := Told(gw, ms[..|ms| - 1]);
      var m := ms[|ms| - 1];
      assert m in ms;
      if m.kind == FRAME_GW_CONF then B.GatewayCommand(before, m).0 else before
  }

  predicate AllFine(ms: seq<Message>) { forall m :: m in ms ==> m.Valid() }

  lemma ToldMore(gw: B.Gateway, ms: seq<Message>, m: Message)
    requires AllFine(ms) && m.Valid()
    ensures AllFine(ms + [m])
    ensures Told(gw, ms + [m]) == if m.kind == FRAME_GW_CONF then B.GatewayCommand(Told(gw, ms), m).0 else Told(gw, ms)
  {
    assert (ms + [m])[..|ms|] == ms;
    hide B.GatewayCommand;
  }

  /** Frames that do not set the mode. */
  predicate Known(m: Message) {
    || (m.Valid() && m.kind == FRAME_SRIC) || m == GenToken() || m == ReqToken() || m == HaveToken()
  }

  lemma {:induction false} ModeStays(gw: B.Gateway, ms: seq<Message>, more: seq<Message>)
    requires AllFine(ms) && forall m :: m in more ==> Known(m)
    ensures AllFine(ms + more) && Told(gw, ms + more).tokenMode == Told(gw, ms).tokenMode
    decreases |more|
  {
    if more == [] {
      assert ms + more == ms;
    } else {
      var front, last := more[..|more| - 1], more[|more| - 1];
      assert last in more && forall m :: m in front ==> m in more;
      ModeStays(gw, ms, front);
      hide Told;
      ToldMore(gw, ms + front, last);
      assert ms + more == ms + front + [last];
    }
  }

  lemma ModeSet(gw: B.Gateway, ms: seq<Message>, use: bool)
    requires AllFine(ms)
    ensures AllFine(ms + [UseToken(use)]) && Told(gw, ms + [UseToken(use)]).tokenMode == use
  {
    hide Told;
    ToldMore(gw, ms, UseToken(use));
  }

  lemma {:induction false} AllKnown(n: nat)
    requires n <= 256
    ensures forall m :: m in ResetsSent(n) ==> Known(m)
    ensures forall m :: m in Given(n) ==> Known(m)
    ensures forall m :: m in Asked(n) ==> Known(m)
  {
    if n > 0 {
      AllKnown(n - 1);
    }
  }

  lemma OpeningMode(gw: B.Gateway, resets: nat)
    requires resets <= 256
    ensures AllFine(Opening(resets)) && !Told(gw, Opening(resets)).tokenMode
  {
    AllKnown(resets);
    assert AllFine(KILL);
    ModeSet(gw, KILL, false);
    hide Told, ResetsSent;
    ModeStays(gw, KILL + [UseToken(false)], ResetsSent(resets));
  }

  lemma GivenMode(gw: B.Gateway, end: nat, more: seq<Message>)
    requires end <= 256 && forall m :: m in more ==> Known(m)
    ensures AllFine(Round() + Given(end) + more) && !Told(gw, Round() + Given(end) + more).tokenMode
  {
    OpeningMode(gw, 5);
    AllKnown(end);
    hide Told, Opening, Given;
    ModeStays(gw, Opening(5), [GenToken(), ReqToken(), HaveToken()]);
    ModeStays(gw, Round(), Given(end));
    ModeStays(gw, Round() + Given(end), more);
  }

  lemma EnumeratingMode(gw: B.Gateway, end: nat)
    requires end <= 256
    ensures AllFine(Round() + Given(end)) && !Told(gw, Round() + Given(end)).tokenMode
  {
    GivenMode(gw, end, []);
    hide Told, Round, Given;
    assert Round() + Given(end) + [] == Round() + Given(end);
  }

  lemma FetchedMode(gw: B.Gateway, last: byte, info: byte)
    ensures AllFine(Fetched(last, info)) && Told(gw, Fetched(last, info)).tokenMode
  {
    GivenMode(gw, last, [AddrAssign(last)]);
    AllKnown(info);
    hide Round, Given, Asked, Told, Known, AllFine, AddrAssign;
    SwitchMode(gw, Round() + Given(last), AddrAssign(last), Asked(info));
  }

  lemma SwitchMode(gw: B.Gateway, given: seq<Message>, assign: Message, asked: seq<Message>)
    requires AllFine(given + [assign]) && forall m :: m in asked ==> Known(m)
    ensures var all := given + [assign, UseToken(true), GenToken()] + asked;
      AllFine(all) && Told(gw, all).tokenMode
  {
    FetchedParts(given, assign, asked);
    hide Told, Known, AllFine;
    ModeSet(gw, given + [assign], true);
    ModeStays(gw, given + [assign] + [UseToken(true)], [GenToken()] + asked);
  }

  lemma FetchedParts(given: seq<Message>, assign: Message, asked: seq<Message>)
    ensures given + [assign, UseToken(true), GenToken()] + asked
         == given + [assign] + [UseToken(true)] + ([GenToken()] + asked)
    ensures (forall m :: m in asked ==> Known(m)) ==> forall m :: m in [GenToken()] + asked ==> Known(m)
  {}

  /** Once the token is caught, a gateway that gets every frame is to wait for the token exactly from when all
      addresses are given out. */
  lemma TokenModeIff(e: Enum, gw: B.Gateway)
    requires WellFormed(e) && InPhase(e) && e.state != Idle && e.state != KillingToken
    ensures AllFine(Script(e))
    ensures Told(gw, Script(e)).tokenMode <==> e.state == FetchingClasses || e.state == Done
  {
    hide Told, Round, Given, Asked, Opening, Fetched;
    match e.state
    case Resetting => OpeningMode(gw, e.resetCount);
    case FetchingClasses => FetchedMode(gw, e.next - 1, e.info);
    case Done => FetchedMode(gw, e.next - 1, e.info);
    case SettingAddr => GivenMode(gw, e.next, [AddrAssign(e.next)]);
    case SettingGwAddr => GivenMode(gw, e.next, [AddrAssign(e.next)]);
    case AdvancingToken => GivenMode(gw, e.next, [AddrAssign(e.next), TokAdvance(e.next)]);
    case Enumerating => EnumeratingMode(gw, e.next);
    case Exited => EnumeratingMode(gw, e.next);
  }
}
