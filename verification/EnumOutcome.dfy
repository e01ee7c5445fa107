/** What is true when enumeration ends on a lossy bus: nothing is left to send, and which classes are registered. */
module EnumOutcome {
  import opened Bytes
  import opened Encoding
  import opened EnumFsm
  import opened BusModel
  import opened EnumLossy

  predicate IsInfo(m: Message) {
    |m.payload| == 1 && 2 <= m.dest < DEVICE_HIGH_ADDRESS && m == AddrInfo(m.dest)
  }

  /** The frames that are answered with a byte of data. */
  predicate IsData(m: Message) { m == HaveToken() || IsInfo(m) }

  predicate IsDatum(r: Reply) { |r.payload| == 1 }

  predicate AnyDatum(acks: seq<Reply>) {
    exists r :: r in acks && IsDatum(r)
  }

  /** At most one frame is waiting to be sent or answered. */
  predicate Few(s: Lossy) {
    s.queue == [] || (|s.queue| == 1 && s.inFlight == None)
  }

  /** A frame that is answered with data is the last one. */
  predicate DataLast(s: Lossy) {
    && (s.inFlight.Some? && IsData(s.inFlight.value) ==> s.queue == [])
    && forall i :: 0 <= i < |s.queue| && IsData(s.queue[i]) ==> i == |s.queue| - 1
  }

  predicate NoData(s: Lossy) {
    && (s.inFlight.Some? ==> !IsData(s.inFlight.value))
    && forall m :: m in s.queue ==> !IsData(m)
  }

  /** Behind the ack of a new address there is no data. */
  predicate DataBefore(acks: seq<Reply>, a: byte) {
    forall i, j :: 0 <= i < j < |acks| && acks[i].From() == a ==> !IsDatum(acks[j])
  }

  predicate Busy(e: Enum) { Settling(e) || e.state == AdvancingToken }

  predicate Asks(e: Enum) { e.state == Enumerating || e.state == FetchingClasses }

  predicate Tidy(s: Lossy) {
    && DataLast(s)
    && (!Asks(s.e) || AnyDatum(s.acks) ==> Few(s))
    && (Busy(s.e) ==> NoData(s))
    && (s.e.state == SettingGwAddr ==> DataBefore(s.acks, s.e.next))
    && (s.e.state == Done ==> s.queue == [] && s.inFlight == None)
  }

  // ----- Which frames bring data -----

  /** Somebody with address a has class c. */
  predicate HasClass(b: Bus, a: int, c: byte) {
    || (b.gw.address == a && b.gw.cls == c)
    || exists i :: 0 <= i < |b.devices| && b.devices[i].address == a && b.devices[i].cls == c
  }

  /** The answer tells the class of the one who sent it. */
  predicate Truthful(b: Bus, r: Reply) {
    IsDatum(r) ==> HasClass(b, r.From(), r.payload[0])
  }

  lemma OneAnswer(d: Device, m: Message)
    requires Carriable(m) && (IsInfo(m) || m == AddrAssign(ArgumentOf(m)) || m == TokAdvance(m.dest))
    ensures forall r :: r in OnMessage(d, m).1 ==>
      (IsDatum(r) ==> IsInfo(m) && d.address == m.dest && r == DataFrom(d.address, DIRECTOR, d.cls))
  {}

  lemma DataFromIs(a: byte, c: byte)
    requires a < 0x80
    ensures DataFrom(a, DIRECTOR, c).From() == a && DataFrom(a, DIRECTOR, c).payload == [c]
  {}

  lemma BusAnswers(b: Bus, m: Message)
    requires Carriable(m) && (IsInfo(m) || m == AddrAssign(ArgumentOf(m)) || m == TokAdvance(m.dest))
    ensures forall r :: r in Broadcast(b.devices, m).1 ==> (IsDatum(r) ==> IsInfo(m)) && Truthful(b, r)
  {
    BroadcastEach(b.devices, m);
    hide Broadcast, OnMessage, DataFrom, IsInfo;
    forall r | r in Broadcast(b.devices, m).1
      ensures (IsDatum(r) ==> IsInfo(m)) && Truthful(b, r)
    {
      var i :| 0 <= i < |b.devices| && r in OnMessage(b.devices[i], m).1;
      OneAnswer(b.devices[i], m);
      if IsDatum(r) {
        InfoDest(m);
        DataFromIs(m.dest, b.devices[i].cls);
      }
    }
  }

  lemma InfoDest(m: Message)
    requires IsInfo(m)
    ensures 2 <= m.dest < 0x80
  {}

  /** Data comes only from frames that ask for it, and class queries are answered with the truth. */
  lemma Answers(b: Bus, e: Enum, m: Message)
    requires FrameFine(e, m) && Carriable(m)
    ensures forall r :: r in Deliver(b, m).1 ==>
      (IsDatum(r) ==> IsData(m)) && (m != HaveToken() ==> Truthful(b, r))
  {
    if m.kind == FRAME_GW_CONF {
      GatewayAnswers(b.gw, m);
      hide GatewayCommand, Broadcast, FrameFine, HasClass;
    } else {
      BusFrame(e, m);
      BusAnswers(b, m);
      GatewayAsDeviceAnswers(b, m);
      hide Broadcast, GatewayAsDevice, FrameFine, HasClass, IsInfo;
    }
  }

  lemma GatewayAnswers(gw: Gateway, m: Message)
    requires Carriable(m) && m.kind == FRAME_GW_CONF
    ensures forall r :: r in GatewayCommand(gw, m).1 ==> IsDatum(r) ==> CommandOf(m) == GW_CMD_HAVE_TOKEN
  {}

  lemma BusFrame(e: Enum, m: Message)
    requires FrameFine(e, m) && Carriable(m) && m.kind != FRAME_GW_CONF
    ensures IsInfo(m) || m == AddrAssign(ArgumentOf(m)) || m == TokAdvance(m.dest)
  {}

  lemma GatewayAsDeviceAnswers(b: Bus, m: Message)
    requires Carriable(m)
    requires IsInfo(m) || m == AddrAssign(ArgumentOf(m)) || m == TokAdvance(m.dest)
    ensures forall r :: r in GatewayAsDevice(b.gw, m).1 ==> (IsDatum(r) ==> IsInfo(m)) && Truthful(b, r)
  {}

  // ----- Nothing is left to send -----

  lemma TidyLoad(s: Lossy)
    requires WellFormed(s.e) && Tidy(s) && Possible(s, Load)
    ensures Tidy(Step(s, Load))
  {
    hide IsData, AnyDatum, DataBefore;
    var s' := Step(s, Load);
    assert s.queue[0] in s.queue;
    assert forall i :: 0 <= i < |s'.queue| ==> s'.queue[i] == s.queue[i + 1];
    assert forall m :: m in s'.queue ==> m in s.queue;
  }

  lemma TidyGone(s: Lossy)
    requires Tidy(s) && s.acks != []
    ensures Tidy(s.(acks := s.acks[1..]))
  {
    FewerAcks(s.acks, s.e.next);
    hide IsData, DataLast, NoData, Few, DataBefore, AnyDatum;
  }

  lemma FewerAcks(acks: seq<Reply>, a: byte)
    requires acks != []
    ensures DataBefore(acks, a) ==> DataBefore(acks[1..], a)
    ensures AnyDatum(acks[1..]) ==> AnyDatum(acks)
  {
    hide IsDatum;
    var t := acks[1..];
    assert forall i :: 0 <= i < |t| ==> t[i] == acks[i + 1];
    assert forall r :: r in t ==> r in acks;
  }

  lemma TidyArrives(s: Lossy, ev: Event)
    requires Inv(s) && Tidy(s) && Possible(s, ev) && ev.Arrives?
    ensures Tidy(Step(s, ev))
  {
    var m, s' := s.inFlight.value, Step(s, ev);
    var out := Exchange(s.bus, m, ev.extra).1;
    ExchangeOut(s.bus, m, ev.extra);
    Answers(s.bus, s.e, m);
    hide Inv, Exchange, Deliver, IsData, HasClass, Truthful, IsDatum, Carriable;
    assert s' == s.(bus := s'.bus, acks := s.acks + out);
    assert AnyDatum(s'.acks) ==> AnyDatum(s.acks) || IsData(m);
    if s.e.state == SettingGwAddr {
      DataBeforeMore(s.acks, out, s.e.next);
    }
    hide AnyDatum, DataBefore;
  }

  lemma ExchangeOut(b: Bus, m: Message, extra: nat)
    requires Carriable(m)
    ensures Exchange(b, m, extra).1 == Deliver(b, m).1
  {
    hide Deliver, AdvanceTimes;
  }

  lemma DataBeforeMore(acks: seq<Reply>, out: seq<Reply>, a: byte)
    requires DataBefore(acks, a) && forall r :: r in out ==> !IsDatum(r)
    ensures DataBefore(acks + out, a)
  {
    hide IsDatum;
    assert forall j :: |acks| <= j < |acks + out| ==> (acks + out)[j] == out[j - |acks|];
  }

  /** Every way the state machine moves, and what it takes. */
  lemma Moves(e: Enum, r: Reply)
    requires WellFormed(e) && UnderWay(e)
    ensures var x := OnReply(e, r);
      || (x.e.state == e.state && x.e.next == e.next && x.sent == [])
      || (e.state == FetchingClasses && IsDatum(r) && x.e.state == Done && x.sent == [])
      || (e.state == FetchingClasses && IsDatum(r) && x.e.state == FetchingClasses && |x.sent| == 1
        && IsInfo(x.sent[0]))
      || (e.state == Enumerating && IsDatum(r) && x.e.state == Exited && x.sent == [])
      || (e.state == Enumerating && IsDatum(r) && Settling(x.e) && x.e.next == e.next && x.sent == [AddrAssign(e.next)])
      || (e.state == SettingAddr && x.e.state == AdvancingToken && x.sent == [TokAdvance(e.next)])
      || (e.state == SettingGwAddr && r.From() == e.next && x.e.state == FetchingClasses
          && x.sent == [UseToken(true), GenToken(), AddrInfo(2)])
      || (e.state == AdvancingToken && x.e.state == Enumerating && x.sent == [HaveToken()])
  {
    hide AddedUpTo;
  }

  lemma SentData(e: Enum, r: Reply)
    requires WellFormed(e) && UnderWay(e)
    ensures var x := OnReply(e, r);
      && (Busy(x.e) ==> forall m :: m in x.sent ==> !IsData(m))
      && (forall i :: 0 <= i < |x.sent| && IsData(x.sent[i]) ==> i == |x.sent| - 1)
  {
    Moves(e, r);
    hide OnReply, IsDatum;
  }

  lemma TidyAck(s: Lossy)
    requires Inv(s) && Tidy(s) && s.acks != [] && s.inFlight.Some?
    ensures Tidy(Step(s, AckArrives))
  {
    var r := s.acks[0];
    var x := OnReply(s.e, r);
    var s' := Step(s, AckArrives);
    assert s' == s.(e := x.e, queue := s.queue + x.sent, inFlight := None, acks := s.acks[1..]);
    Moves(s.e, r);
    SentData(s.e, r);
    if s.e.state == Enumerating && Settling(x.e) {
      FreshAcks(s);
    }
    hide Inv, OnReply, IsData, IsDatum;
    assert r in s.acks;
    if x.sent == [] {
      AckSilent(s, x, s');
    } else {
      AckSends(s, x, s');
    }
  }

  lemma FreshAcks(s: Lossy)
    requires Inv(s) && s.e.state == Enumerating
    ensures forall r :: r in s.acks ==> r.From() != s.e.next
  {
    NextIsFree(s.bus, s.e);
    hide BusFine, RingFine, NotStarted, AllFramesFine, OneAssignment;
  }

  lemma AckSilent(s: Lossy, x: Reaction, s': Lossy)
    requires Tidy(s) && s.acks != [] && s.inFlight.Some? && x.sent == []
    requires s' == s.(e := x.e, queue := s.queue + x.sent, inFlight := None, acks := s.acks[1..])
    requires (x.e.state == s.e.state && x.e.next == s.e.next)
      || (Asks(s.e) && AnyDatum(s.acks) && (x.e.state == Done || x.e.state == Exited))
    ensures Tidy(s')
  {
    assert s.queue + [] == s.queue;
    TidyGone(s);
    hide IsData, AnyDatum, DataBefore;
  }

  lemma AckSends(s: Lossy, x: Reaction, s': Lossy)
    requires Tidy(s) && s.acks != [] && s.inFlight.Some? && x.sent != []
    requires s' == s.(e := x.e, queue := s.queue + x.sent, inFlight := None, acks := s.acks[1..])
    requires Asks(s.e) ==> AnyDatum(s.acks)
    requires x.e.state != Done
    requires Busy(x.e) ==> forall m :: m in x.sent ==> !IsData(m)
    requires forall i :: 0 <= i < |x.sent| && IsData(x.sent[i]) ==> i == |x.sent| - 1
    requires |x.sent| == 1
      || (s.e.state == SettingGwAddr && s.acks[0].From() == s.e.next && x.e.state == FetchingClasses)
    requires x.e.state == SettingGwAddr ==> forall r :: r in s.acks ==> r.From() != x.e.next
    ensures Tidy(s')
  {
    assert s.queue == [];
    assert [] + x.sent == x.sent;
    hide IsData, IsDatum;
    assert forall r :: r in s'.acks ==> r in s.acks;
    if |x.sent| != 1 {
      forall r | r in s'.acks ensures !IsDatum(r) {
        var j :| 0 <= j < |s'.acks| && s'.acks[j] == r;
        assert s.acks[j + 1] == r;
      }
    }
  }

  lemma TidyStep(s: Lossy, ev: Event)
    requires Inv(s) && Tidy(s) && Possible(s, ev)
    ensures Tidy(Step(s, ev))
  {
    match ev
    case Load => TidyLoad(s);
    case Arrives(_) => TidyArrives(s, ev);
    case Vanishes =>
    case AckArrives =>
      if s.inFlight.None? {
        TidyGone(s);
      } else {
        TidyAck(s);
      }
    case AckVanishes => TidyGone(s);
    case Tick => hide Inv;
  }

  lemma {:induction false} TidyRun(s: Lossy, events: seq<Event>)
    requires Inv(s) && Tidy(s) && LegalRun(s, events)
    ensures Tidy(After(s, events))
    decreases |events|
  {
    if events != [] {
      InvStep(s, events[0]);
      TidyStep(s, events[0]);
      StepWellFormed(s, events[0]);
      hide Inv, Tidy, Possible, Step, WellFormed;
      TidyRun(Step(s, events[0]), events[1..]);
    }
  }

  lemma StartTidy(s: Lossy)
    requires JustReset(s)
    ensures Tidy(s)
  {}

  /** When enumeration ends, no frame of it is queued or unanswered: no ack can come for one any more. */
  lemma NothingLeftWhenDone(s: Lossy, events: seq<Event>)
    requires JustReset(s) && LegalRun(s, events)
    ensures var t := After(s, events);
      t.e.state == Done ==> t.queue == [] && t.inFlight == None
  {
    StartInv(s);
    StartTidy(s);
    hide Inv, JustReset, LegalRun, After;
    TidyRun(s, events);
  }

  // ----- Which classes are registered -----

  /** What a step lets the daemon hear: the address whose answer to a class query it takes in. */
  function HeardNow(s: Lossy, ev: Event): set<int> {
    if ev.AckArrives? && s.inFlight.Some? && s.acks != [] && s.e.state == FetchingClasses && IsDatum(s.acks[0])
       && s.acks[0].IsAck() && s.acks[0].From() != s.e.next
    then {s.acks[0].From() as int} else {}
  }

  function Heard(s: Lossy, events: seq<Event>): set<int>
    requires WellFormed(s.e) && LegalRun(s, events)
    decreases |events|
  {
    if events == [] then {} else
      StepWellFormed(s, events[0]);
      HeardNow(s, events[0]) + Heard(Step(s, events[0]), events[1..])
  }

  /** Whoever has a class at an address still has it there. */
  ghost predicate Keeps(b: Bus, b': Bus) {
    forall a, c :: a != -1 && HasClass(b, a, c) ==> HasClass(b', a, c)
  }

  lemma KeepsOne(d: Device, m: Message, e: Enum)
    requires FrameFine(e, m) && Carriable(m)
    ensures var d' := OnMessage(d, m).0;
      d'.cls == d.cls && (d.address != -1 ==> d'.address == d.address)
  {}

  lemma SameDevicesKeep(b: Bus, b': Bus)
    requires |b.devices| == |b'.devices| && b'.gw.cls == b.gw.cls
      && (b.gw.address != -1 ==> b'.gw.address == b.gw.address)
    requires forall i :: 0 <= i < |b.devices| ==>
      b'.devices[i].cls == b.devices[i].cls
        && (b.devices[i].address != -1 ==> b'.devices[i].address == b.devices[i].address)
    ensures Keeps(b, b')
  {
    forall a, c | a != -1 && HasClass(b, a, c) ensures HasClass(b', a, c) {
      if !(b.gw.address == a && b.gw.cls == c) {
        var i :| 0 <= i < |b.devices| && b.devices[i].address == a && b.devices[i].cls == c;
        assert b'.devices[i].address == a;
      }
    }
  }

  lemma DeliverKeeps(b: Bus, e: Enum, m: Message)
    requires FrameFine(e, m) && Carriable(m)
    ensures Keeps(b, Deliver(b, m).0)
  {
    var b' := Deliver(b, m).0;
    BroadcastEach(b.devices, m);
    forall i | 0 <= i < |b.devices|
      ensures var d' := OnMessage(b.devices[i], m).0;
        d'.cls == b.devices[i].cls && (b.devices[i].address != -1 ==> d'.address == b.devices[i].address)
    {
      KeepsOne(b.devices[i], m, e);
    }
    hide Broadcast, OnMessage, FrameFine;
    SameDevicesKeep(b, b');
  }

  lemma ExchangeKeeps(b: Bus, e: Enum, m: Message, extra: nat)
    requires WellFormed(e) && BusFine(b, e) && FrameFine(e, m) && (RingFine(b) || m == GenToken()) && Carriable(m)
    ensures Keeps(b, Exchange(b, m, extra).0)
  {
    AnyFrame(b, e, m);
    DeliverKeeps(b, e, m);
    var b1 := Deliver(b, m).0;
    assert Ordered(b1.devices);
    hide Deliver, Ordered, AddressedInOrder, AddressesFine, FrameFine, AdvanceTimes, HasClass;
    AdvanceTimesRing(b1, 1 + extra);
    SameDevicesKeep(b1, AdvanceTimes(b1, 1 + extra));
  }

  lemma AdvanceKeeps(b: Bus)
    requires RingFine(b) || Ordered(b.devices)
    ensures Keeps(b, Advance(b)) && forall a :: Held(b, a) ==> Held(Advance(b), a)
  {
    AdvanceOrdered(b);
    var b' := Advance(b);
    hide Advance, Ordered, AllReleased;
    SameDevicesKeep(b, b');
    forall a | Held(b, a) ensures Held(b', a) {
      if b.gw.address != a {
        var i :| 0 <= i < |b.devices| && b.devices[i].address == a;
        assert b'.devices[i].address == a;
      }
    }
  }

  /** What is recorded at an address, given what was there at first and whether its answer was heard. */
  predicate Recorded(b: Bus, classes: seq<byte>, first: seq<byte>, heard: set<int>) {
    |classes| == |first| == DEVICE_HIGH_ADDRESS && forall a :: 0 <= a < DEVICE_HIGH_ADDRESS ==>
      if a in heard then HasClass(b, a, classes[a]) else classes[a] == first[a]
  }

  predicate NotHave(s: Lossy) {
    HaveToken() !in s.queue && s.inFlight != Some(HaveToken())
  }

  predicate AllTruthful(b: Bus, acks: seq<Reply>) {
    forall r :: r in acks ==> Truthful(b, r)
  }

  predicate AllHeld(b: Bus, next: nat) {
    forall a :: 2 <= a < next ==> Held(b, a)
  }

  predicate Registered(e: Enum) {
    WellFormed(e) && forall a: nat :: 2 <= a < e.next ==> a in e.added && e.added[a] == e.classes[a]
  }

  predicate Told(s: Lossy, first: seq<byte>, heard: set<int>) {
    && (s.e.state == FetchingClasses ==> NotHave(s) && AllTruthful(s.bus, s.acks))
    && Recorded(s.bus, s.e.classes, first, heard) && AllHeld(s.bus, s.e.next)
    && (s.e.state == Done ==> Registered(s.e))
  }

  lemma StillTold(s: Lossy, s': Lossy, first: seq<byte>, heard: set<int>)
    requires Told(s, first, heard) && s'.e == s.e && Keeps(s.bus, s'.bus)
    requires forall a :: a != -1 && Held(s.bus, a) ==> Held(s'.bus, a)
    requires s.e.state == FetchingClasses ==>
      NotHave(s') && forall r :: r in s'.acks ==> r in s.acks || Truthful(s'.bus, r)
    requires forall r :: r in s.acks ==> r.From() != -1
    ensures Told(s', first, heard)
  {
    hide HasClass, Held, NotHave, Registered;
  }

  lemma ToldArrives(s: Lossy, ev: Event, first: seq<byte>, heard: set<int>)
    requires Inv(s) && Told(s, first, heard) && Possible(s, ev) && ev.Arrives?
    ensures Told(Step(s, ev), first, heard)
  {
    var m, s' := s.inFlight.value, Step(s, ev);
    ExchangeFine(s.bus, s.e, m, ev.extra);
    ExchangeKeeps(s.bus, s.e, m, ev.extra);
    ExchangeOut(s.bus, m, ev.extra);
    Answers(s.bus, s.e, m);
    var out := Exchange(s.bus, m, ev.extra).1;
    hide Inv, Exchange, Deliver, HasClass, Held, FrameFine, BusFine, RingFine;
    assert s' == s.(bus := s'.bus, acks := s.acks + out);
    assert forall r :: r in out && IsDatum(r) && Truthful(s.bus, r) ==> Truthful(s'.bus, r);
    assert s.e.state == FetchingClasses ==> forall r :: r in out ==> Truthful(s'.bus, r);
    hide Told, Keeps, IsDatum, Truthful, NotHave;
    StillTold(s, s', first, heard);
  }

  predicate IsHeard(e: Enum, r: Reply) {
    e.state == FetchingClasses && IsDatum(r) && r.IsAck() && r.From() != e.next
  }

  lemma Records(e: Enum, r: Reply)
    requires WellFormed(e)
    ensures var x := OnReply(e, r).e;
      && x.classes == (if IsHeard(e, r) then e.classes[r.From() as int := r.payload[0]] else e.classes)
      && (x.next == e.next || (x.next == e.next + 1 && r.From() == e.next))
      && (x.state == Done ==> x == e || Registered(x))
  {}

  lemma RecordMore(b: Bus, classes: seq<byte>, first: seq<byte>, heard: set<int>, r: Reply)
    requires Recorded(b, classes, first, heard) && IsDatum(r) && Truthful(b, r)
    ensures Recorded(b, classes[r.From() as int := r.payload[0]], first, heard + {r.From() as int})
  {
    hide HasClass;
  }

  lemma ToldAck(s: Lossy, first: seq<byte>, heard: set<int>)
    requires Inv(s) && Tidy(s) && Told(s, first, heard) && s.acks != [] && s.inFlight.Some?
    ensures Told(Step(s, AckArrives), first, heard + HeardNow(s, AckArrives))
  {
    var r := s.acks[0];
    var x := OnReply(s.e, r);
    var s' := Step(s, AckArrives);
    assert s' == s.(e := x.e, queue := s.queue + x.sent, inFlight := None, acks := s.acks[1..]);
    Records(s.e, r);
    Moves(s.e, r);
    OnReplyWellFormed(s.e, r);
    assert r in s.acks && AckFine(s.bus, r);
    hide OnReply, BusFine, RingFine, AllFramesFine, OneAssignment, Held, HasClass;
    if IsHeard(s.e, r) {
      RecordMore(s.bus, s.e.classes, first, heard, r);
    }
    assert heard + {} == heard;
    assert AllHeld(s.bus, x.e.next);
    if x.e.state == FetchingClasses {
      ToldFetching(s, x, s');
    }
    hide Recorded, AllHeld, Tidy, NotHave, AllTruthful, Registered, AckFine, WellFormed;
  }

  lemma ToldFetching(s: Lossy, x: Reaction, s': Lossy)
    requires Tidy(s) && s.acks != [] && s.inFlight.Some?
    requires s' == s.(e := x.e, queue := s.queue + x.sent, inFlight := None, acks := s.acks[1..])
    requires s.e.state == FetchingClasses ==> NotHave(s) && AllTruthful(s.bus, s.acks)
    requires s.e.state == FetchingClasses ==> x.sent == [] || (|x.sent| == 1 && IsInfo(x.sent[0]))
    requires s.e.state != FetchingClasses ==>
      && s.e.state == SettingGwAddr && s.acks[0].From() == s.e.next
      && x.sent == [UseToken(true), GenToken(), AddrInfo(2)]
    ensures NotHave(s') && AllTruthful(s'.bus, s'.acks)
  {
    hide HasClass, DataLast, NoData, AnyDatum;
    assert forall r :: r in s'.acks ==> r in s.acks;
    if s.e.state != FetchingClasses {
      assert s.queue == [];
      forall r | r in s'.acks ensures !IsDatum(r) {
        var j :| 0 <= j < |s'.acks| && s'.acks[j] == r;
        assert s.acks[j + 1] == r;
      }
    }
  }

  lemma ToldElse(s: Lossy, ev: Event, first: seq<byte>, heard: set<int>)
    requires Inv(s) && Told(s, first, heard) && Possible(s, ev)
    requires !ev.Arrives? && !(ev.AckArrives? && s.inFlight.Some?)
    ensures Told(Step(s, ev), first, heard) && HeardNow(s, ev) == {}
  {
    var s' := Step(s, ev);
    if ev.Tick? {
      AdvanceKeeps(s.bus);
    }
    hide HasClass, Held, BusFine, RingFine, AllFramesFine, OneAssignment, WellFormed, AckFine, Advance;
    assert forall r :: r in s'.acks ==> r in s.acks;
    assert forall m :: m in s'.queue ==> m in s.queue;
    assert s.queue != [] ==> s.queue[0] in s.queue;
    hide Told, Keeps, Truthful;
    StillTold(s, s', first, heard);
  }

  lemma ToldStep(s: Lossy, ev: Event, first: seq<byte>, heard: set<int>)
    requires Inv(s) && Tidy(s) && Told(s, first, heard) && Possible(s, ev)
    ensures Told(Step(s, ev), first, heard + HeardNow(s, ev))
  {
    hide Inv, Tidy, Told, Possible, Step;
    assert heard + {} == heard;
    if ev.Arrives? {
      ToldArrives(s, ev, first, heard);
    } else if ev.AckArrives? && s.inFlight.Some? {
      assert s.acks != [] by { AckPossible(s, ev); }
      ToldAck(s, first, heard);
    } else {
      ToldElse(s, ev, first, heard);
    }
  }

  lemma AckPossible(s: Lossy, ev: Event)
    requires Possible(s, ev) && ev.AckArrives?
    ensures s.acks != []
  {}

  lemma {:induction false} ToldRun(s: Lossy, events: seq<Event>, first: seq<byte>, heard: set<int>)
    requires Inv(s) && Tidy(s) && Told(s, first, heard) && LegalRun(s, events)
    ensures Told(After(s, events), first, heard + Heard(s, events)) && Inv(After(s, events))
    decreases |events|
  {
    if events == [] {
      assert heard + {} == heard;
    } else {
      InvStep(s, events[0]);
      TidyStep(s, events[0]);
      ToldStep(s, events[0], first, heard);
      StepWellFormed(s, events[0]);
      hide Inv, Tidy, Told, Possible, Step, WellFormed, HeardNow;
      var h := HeardNow(s, events[0]);
      ToldRun(Step(s, events[0]), events[1..], first, heard + h);
      assert (heard + h) + Heard(Step(s, events[0]), events[1..]) == heard + Heard(s, events);
    }
  }

  lemma StartTold(s: Lossy)
    requires JustReset(s)
    ensures Told(s, s.e.classes, {})
  {}

  /** Two participants never have the same address, so an address has one class. */
  lemma OneClass(b: Bus, e: Enum, a: int, c: byte, d: byte)
    requires BusFine(b, e) && a != -1 && HasClass(b, a, c) && HasClass(b, a, d)
    ensures c == d
  {}

  /** Whatever was lost or repeated, when enumeration ends each address given out is held by somebody and registered,
      and it is registered with its holder's class exactly if the holder's answer was heard while classes were being
      fetched, or its class happens to be what the table held at first. */
  lemma RegisteredClasses(s: Lossy, events: seq<Event>, a: nat)
    requires JustReset(s) && LegalRun(s, events) && After(s, events).e.state == Done
    requires 2 <= a < After(s, events).e.next
    ensures var t := After(s, events);
      && Held(t.bus, a) && a in t.e.added
      && (a !in Heard(s, events) ==> t.e.added[a] == s.e.classes[a])
      && (a in Heard(s, events) ==> forall c :: HasClass(t.bus, a, c) <==> c == t.e.added[a])
      && (HasClass(t.bus, a, t.e.added[a]) <==> a in Heard(s, events) || HasClass(t.bus, a, s.e.classes[a]))
  {
    var t := After(s, events);
    StartInv(s);
    StartTidy(s);
    StartTold(s);
    hide JustReset, LegalRun, After, Heard;
    ToldRun(s, events, s.e.classes, {});
    assert {} + Heard(s, events) == Heard(s, events);
    hide HasClass, Held, RingFine, AllFramesFine, OneAssignment, BusFine;
    forall c | HasClass(t.bus, a, c) && HasClass(t.bus, a, t.e.added[a]) ensures c == t.e.added[a] {
      OneClass(t.bus, t.e, a, c, t.e.added[a]);
    }
  }

  // ----- A class that is never asked for -----

  /** One device, at address 2, and the gateway at 3; the device's class has been asked for. */
  predicate AskingFirst(s: Lossy, cls: byte) {
    && WellFormed(s.e) && s.e.state == FetchingClasses && s.e.next == 4 && s.e.info == 3
    && s.queue == [] && s.inFlight == Some(AddrInfo(2)) && s.acks == []
    && TwoParticipants(s.bus, cls)
  }

  predicate TwoParticipants(b: Bus, cls: byte) {
    |b.devices| == 1 && b.devices[0].address == 2 && b.devices[0].cls == cls && b.gw.address == 3
  }

  lemma FirstAnswers(b: Bus, cls: byte)
    requires TwoParticipants(b, cls)
    ensures Carriable(AddrInfo(2))
    ensures var (b', out) := Exchange(b, AddrInfo(2), 0);
      TwoParticipants(b', cls) && out == [DataFrom(2, DIRECTOR, cls)]
  {
    var m := AddrInfo(2);
    var d := b.devices[0];
    assert b.devices == [d] && b.devices[1..] == [];
    assert OnMessage(d, m) == (d, [DataFrom(2, DIRECTOR, cls)]);
    assert Broadcast([], m) == ([], []);
    assert Broadcast(b.devices, m) == ([d] + [], [DataFrom(2, DIRECTOR, cls)] + []);
    assert Deliver(b, m).0.devices == [d];
    OneAdvance(Deliver(b, m).0, cls);
  }

  lemma OneAdvance(b: Bus, cls: byte)
    requires TwoParticipants(b, cls)
    ensures TwoParticipants(AdvanceTimes(b, 1), cls)
  {
    assert AdvanceTimes(b, 1) == Advance(b);
  }

  /** The device's answer comes twice: the second one is taken for the gateway's, whose query is never sent, and the
      gateway is registered with whatever class its entry held. */
  lemma SecondAnswerMisread(s: Lossy, cls: byte)
    requires AskingFirst(s, cls)
    ensures var events := [Arrives(0), Arrives(0), AckArrives, Load, AckArrives];
      && LegalRun(s, events)
      && var t := After(s, events);
      && t.e.state == Done && 3 in t.e.added && t.e.added[3] == s.e.classes[3]
  {
    AskedTwice(s, cls);
    var s1 := Step(s, Arrives(0));
    var s2 := Step(s1, Arrives(0));
    DataFromIs(2, cls);
    MisreadRun(s2, DataFrom(2, DIRECTOR, cls));
    hide Step, Possible, LegalRun, After, AskingFirst, DataFrom;
    var rest := [AckArrives, Load, AckArrives];
    ThenRun(s1, Arrives(0), rest);
    ThenRun(s, Arrives(0), [Arrives(0)] + rest);
    assert [Arrives(0)] + ([Arrives(0)] + rest) == [Arrives(0), Arrives(0), AckArrives, Load, AckArrives];
  }

  lemma AskedTwice(s: Lossy, cls: byte)
    requires AskingFirst(s, cls)
    ensures Possible(s, Arrives(0))
    ensures var s1 := Step(s, Arrives(0));
      && WellFormed(s1.e) && Possible(s1, Arrives(0))
      && var s2 := Step(s1, Arrives(0));
      var r := DataFrom(2, DIRECTOR, cls);
      s2 == s.(bus := s2.bus, acks := [r, r])
  {
    FirstAnswers(s.bus, cls);
    hide Exchange, DataFrom, Carriable, WellFormed;
    var s1 := Step(s, Arrives(0));
    FirstAnswers(s1.bus, cls);
    var r := DataFrom(2, DIRECTOR, cls);
    assert [] + [r] == [r] && [r] + [r] == [r, r];
  }

  lemma MisreadRun(s: Lossy, r: Reply)
    requires WellFormed(s.e) && s.e.state == FetchingClasses && s.e.next == 4 && s.e.info == 3
    requires s.queue == [] && s.inFlight.Some? && s.acks == [r, r] && r.IsAck() && r.From() == 2 && IsDatum(r)
    ensures var events := [AckArrives, Load, AckArrives];
      && LegalRun(s, events)
      && var t := After(s, events);
      t.e.state == Done && 3 in t.e.added && t.e.added[3] == s.e.classes[3]
  {
    FirstTaken(s, r);
    var s3 := Step(s, AckArrives);
    SecondTaken(s3, r);
    var s4 := Step(s3, Load);
    hide Step, Possible, OnReply, WellFormed;
    ThenRun(s4, AckArrives, []);
    ThenRun(s3, Load, [AckArrives]);
    ThenRun(s, AckArrives, [Load, AckArrives]);
    assert [AckArrives] + [] == [AckArrives] && [Load] + [AckArrives] == [Load, AckArrives];
    assert [AckArrives] + [Load, AckArrives] == [AckArrives, Load, AckArrives];
  }

  lemma FirstTaken(s: Lossy, r: Reply)
    requires WellFormed(s.e) && s.e.state == FetchingClasses && s.e.next == 4 && s.e.info == 3
    requires s.queue == [] && s.inFlight.Some? && s.acks == [r, r] && r.IsAck() && r.From() == 2 && IsDatum(r)
    ensures Possible(s, AckArrives)
    ensures var s' := Step(s, AckArrives);
      && WellFormed(s'.e) && s'.e.state == FetchingClasses && s'.e.next == 4 && s'.e.info == 4
      && s'.e.classes[3] == s.e.classes[3]
      && s'.queue == [AddrInfo(3)] && s'.inFlight == None && s'.acks == [r]
  {
    assert [r, r][1..] == [r] && [] + [AddrInfo(3)] == [AddrInfo(3)];
  }

  lemma SecondTaken(s: Lossy, r: Reply)
    requires WellFormed(s.e) && s.e.state == FetchingClasses && s.e.next == 4 && s.e.info == 4
    requires s.queue == [AddrInfo(3)] && s.inFlight == None && s.acks == [r] && r.IsAck() && r.From() == 2 && IsDatum(r)
    ensures Possible(s, Load)
    ensures var s4 := Step(s, Load);
      && WellFormed(s4.e) && Possible(s4, AckArrives)
      && var t := Step(s4, AckArrives);
      WellFormed(t.e) && t.e.state == Done && 3 in t.e.added && t.e.added[3] == s.e.classes[3]
  {}

  lemma ThenRun(s: Lossy, ev: Event, rest: seq<Event>)
    requires WellFormed(s.e) && Possible(s, ev) && WellFormed(Step(s, ev).e) && LegalRun(Step(s, ev), rest)
    ensures LegalRun(s, [ev] + rest) && After(s, [ev] + rest) == After(Step(s, ev), rest)
  {
    hide Step, Possible, WellFormed;
    assert ([ev] + rest)[1..] == rest;
  }
}
