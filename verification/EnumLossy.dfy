/** Enumeration over a lossy bus: frames and answers may be lost, a frame may be transmitted any number of times and
    answered each time, answers may be late, and the token may advance at any time in between. */
module EnumLossy {
  import opened Bytes
  import opened Encoding
  import opened EnumFsm
  import opened BusModel

  /** `acks` are the answers on their way to the daemon, oldest first. */
  datatype Lossy = Lossy(e: Enum, queue: seq<Message>, inFlight: Option<Message>, bus: Bus, acks: seq<Reply>)

  datatype Event =
    | Load                      // the next queued frame becomes the frame in flight
    | Arrives(extra: nat)       // the frame in flight is (re)transmitted and gets through
    | Vanishes                  // it is (re)transmitted and lost
    | AckArrives
    | AckVanishes
    | Tick                      // the token advances without a frame

  predicate Possible(s: Lossy, ev: Event) {
    match ev
    case Load => s.inFlight.None? && s.queue != []
    case Arrives(_) => s.inFlight.Some? && Carriable(s.inFlight.value)
    case Vanishes => s.inFlight.Some?
    case AckArrives => s.acks != []
    case AckVanishes => s.acks != []
    case Tick => true
  }

  /** An ack retires the frame in flight, whichever that is, and goes to the state machine;
      without a frame in flight it is ignored. */
  function Step(s: Lossy, ev: Event): Lossy
    requires WellFormed(s.e) && Possible(s, ev)
  {
    match ev
    case Load => s.(inFlight := Some(s.queue[0]), queue := s.queue[1..])
    case Arrives(extra) =>
      var (bus, out) := Exchange(s.bus, s.inFlight.value, extra);
      s.(bus := bus, acks := s.acks + out)
    case Vanishes => s
    case AckArrives =>
      if s.inFlight.None? then s.(acks := s.acks[1..])
      else
        var r := OnReply(s.e, s.acks[0]);
        s.(e := r.e, queue := s.queue + r.sent, inFlight := None, acks := s.acks[1..])
    case AckVanishes => s.(acks := s.acks[1..])
    case Tick => s.(bus := Advance(s.bus))
  }

  // ----- The ring -----

  /** A device holds the token only when all devices before it have been told to let go of it. */
  predicate Ordered(ds: seq<Device>) {
    forall i, j :: 0 <= i < j < |ds| && ds[j].has ==> !ds[i].keep
  }

  predicate AllReleased(ds: seq<Device>) {
    forall i :: 0 <= i < |ds| ==> !ds[i].keep
  }

  /** Only a device with an address lets go of the token, and devices get addresses in ring order. */
  predicate AddressedInOrder(ds: seq<Device>) {
    && (forall i :: 0 <= i < |ds| && !ds[i].keep ==> ds[i].address != -1)
    && (forall i, j :: 0 <= i < j < |ds| && ds[j].address != -1 ==> ds[i].address != -1)
  }

  /** Two lists of devices differ only in who has the token. */
  predicate SameBut(ds: seq<Device>, ds': seq<Device>) {
    |ds| == |ds'| && forall i :: 0 <= i < |ds| ==> ds'[i] == ds[i].(has := ds'[i].has)
  }

  /** Ordered, for a list that comes after devices which are all released iff `open`. */
  predicate OrderedFrom(open: bool, ds: seq<Device>) {
    Ordered(ds) && (!open ==> forall i :: 0 <= i < |ds| ==> !ds[i].has)
  }

  lemma OrderedCons(open: bool, ds: seq<Device>)
    requires ds != []
    ensures OrderedFrom(open, ds) <==> (!open ==> !ds[0].has) && OrderedFrom(open && !ds[0].keep, ds[1..])
  {
    var open' := open && !ds[0].keep;
    if OrderedFrom(open, ds) {
      assert forall i :: 0 <= i < |ds[1..]| ==> ds[1..][i] == ds[i + 1];
    }
    if (!open ==> !ds[0].has) && OrderedFrom(open', ds[1..]) {
      assert forall i :: 1 <= i < |ds| ==> ds[i] == ds[1..][i - 1];
      forall i, j | 0 <= i < j < |ds| && ds[j].has
        ensures !ds[i].keep
      {
        assert ds[1..][j - 1].has;
        if i > 0 {
          assert !ds[1..][i - 1].keep;
        }
      }
    }
  }

  lemma {:induction false} RotateOrdered(open: bool, ds: seq<Device>, onWire: bool)
    requires OrderedFrom(open, ds) && (onWire ==> open)
    ensures var (ds', out) := Rotate(ds, onWire);
      SameBut(ds, ds') && OrderedFrom(open, ds') && (out ==> open && AllReleased(ds))
    decreases |ds|
  {
    if ds != [] {
      var (d, w) := Juggle(ds[0], onWire);
      OrderedCons(open, ds);
      RotateOrdered(open && !ds[0].keep, ds[1..], w);
      var rest := Rotate(ds[1..], w).0;
      assert ([d] + rest)[1..] == rest;
      OrderedCons(open, [d] + rest);
      hide OrderedFrom, Rotate;
    }
  }

  /** The gateway has the token only when all devices have let go of it. */
  predicate RingFine(b: Bus) {
    Ordered(b.devices) && (b.gw.has ==> AllReleased(b.devices))
  }

  /** Advancing restores the ring invariant even right after the gateway made a token. */
  lemma AdvanceRing(b: Bus)
    requires Ordered(b.devices) && (b.gw.has && b.gw.keep ==> AllReleased(b.devices))
    ensures RingFine(Advance(b)) && SameBut(b.devices, Advance(b).devices)
    ensures Advance(b).gw == b.gw.(has := Advance(b).gw.has)
  {
    hide Rotate;
    RotateOrdered(true, b.devices, b.gw.has);
  }

  lemma {:induction false} AdvanceTimesRing(b: Bus, n: nat)
    requires RingFine(b) || (n > 0 && Ordered(b.devices) && !b.gw.keep)
    ensures var b' := AdvanceTimes(b, n);
      RingFine(b') && SameBut(b.devices, b'.devices) && b'.gw == b.gw.(has := b'.gw.has)
    decreases n
  {
    if n > 0 {
      AdvanceRing(b);
      hide Advance;
      AdvanceTimesRing(Advance(b), n - 1);
    }
  }

  /** Before the first token is made, only the order along the ring is kept. */
  lemma AdvanceOrdered(b: Bus)
    requires Ordered(b.devices)
    ensures Ordered(Advance(b).devices) && SameBut(b.devices, Advance(b).devices)
    ensures Advance(b).gw == b.gw.(has := Advance(b).gw.has)
  {
    if !(b.gw.keep && b.gw.has) {
      AdvanceRing(b);
    }
  }

  // ----- Addresses -----

  predicate Settling(e: Enum) { e.state == SettingAddr || e.state == SettingGwAddr }

  /** An address that may have been taken by now. */
  predicate Taken(e: Enum, a: int) {
    2 <= a < DEVICE_HIGH_ADDRESS && (a < e.next || (a == e.next && (Settling(e) || e.state == AdvancingToken)))
  }

  /** No address is held twice, and a device that has just taken the current one still keeps the token. */
  predicate AddressesFine(b: Bus, e: Enum) {
    && (forall i :: 0 <= i < |b.devices| ==> b.devices[i].address == -1 || Taken(e, b.devices[i].address))
    && (forall i, j :: 0 <= i < j < |b.devices| && b.devices[i].address != -1 ==>
          b.devices[i].address != b.devices[j].address)
    && (b.gw.address == -1 || (Taken(e, b.gw.address) && AllReleased(b.devices)))
    && (forall i :: 0 <= i < |b.devices| && b.devices[i].address != -1 ==> b.devices[i].address != b.gw.address)
    && (Settling(e) ==> forall i :: 0 <= i < |b.devices| && b.devices[i].address == e.next ==> b.devices[i].keep)
  }

  predicate Held(b: Bus, a: int) {
    b.gw.address == a || exists i :: 0 <= i < |b.devices| && b.devices[i].address == a
  }

  /** Answers come from the gateway's command port or from an address that somebody holds. */
  predicate AckFine(b: Bus, r: Reply) {
    r.IsAck() && (r.From() == 1 || Held(b, r.From()))
  }

  predicate BusFine(b: Bus, e: Enum) {
    Ordered(b.devices) && AddressedInOrder(b.devices) && AddressesFine(b, e)
  }

  lemma SameButFine(b: Bus, b': Bus, e: Enum)
    requires BusFine(b, e) && SameBut(b.devices, b'.devices) && b'.gw == b.gw.(has := b'.gw.has) && Ordered(b'.devices)
    ensures BusFine(b', e)
    ensures forall a :: Held(b, a) <==> Held(b', a)
  {
    assert forall i :: 0 <= i < |b.devices| ==>
      b'.devices[i].address == b.devices[i].address && b'.devices[i].keep == b.devices[i].keep;
  }

  // ----- The frames in play once the bus is reset -----

  predicate IsGatewayFrame(m: Message) {
    m == GenToken() || m == ReqToken() || m == HaveToken() || m == UseToken(true)
  }

  /** What the state machine may have queued, given where it is. */
  predicate FrameFine(e: Enum, m: Message) {
    || IsGatewayFrame(m)
    || (|m.payload| == 1 && 2 <= m.dest < DEVICE_HIGH_ADDRESS && m == AddrInfo(m.dest))
    || (|m.payload| == 1 && 2 <= m.dest < DEVICE_HIGH_ADDRESS && m == TokAdvance(m.dest)
        && (m.dest < e.next || (m.dest == e.next && e.state == AdvancingToken)))
    || (m == AddrAssign(e.next) && Settling(e))
  }

  lemma {:induction false} BroadcastEach(ds: seq<Device>, m: Message)
    requires Carriable(m)
    ensures var (ds', out) := Broadcast(ds, m);
      && (forall i :: 0 <= i < |ds| ==> ds'[i] == OnMessage(ds[i], m).0)
      && (forall r :: r in out ==> exists i :: 0 <= i < |ds| && r in OnMessage(ds[i], m).1)
    decreases |ds|
  {
    hide OnMessage, Carriable;
    if ds != [] {
      BroadcastEach(ds[1..], m);
      var (ds', out) := Broadcast(ds, m);
      var (rest, more) := Broadcast(ds[1..], m);
      forall i | 0 <= i < |ds|
        ensures ds'[i] == OnMessage(ds[i], m).0
      {
        if i > 0 {
          assert ds'[i] == rest[i - 1] && ds[i] == ds[1..][i - 1];
        }
      }
      forall r | r in out
        ensures exists i :: 0 <= i < |ds| && r in OnMessage(ds[i], m).1
      {
        if r in OnMessage(ds[0], m).1 {
        } else {
          assert r in more;
          var i :| 0 <= i < |ds[1..]| && r in OnMessage(ds[1..][i], m).1;
          assert ds[1..][i] == ds[i + 1];
        }
      }
    }
  }

  lemma GatewayFrame(b: Bus, e: Enum, m: Message)
    requires BusFine(b, e) && IsGatewayFrame(m)
    ensures Carriable(m)
    ensures var (b', out) := Deliver(b, m);
      && BusFine(b', e) && b'.devices == b.devices && b'.gw.address == b.gw.address
      && (forall r :: r in out ==> AckFine(b', r))
      && (m == GenToken() ==> b'.gw.has && !b'.gw.keep)
      && (m != GenToken() ==> b'.gw.has == b.gw.has)
      && (m == HaveToken() ==> out == [Reply(0x81, 1, [if b.gw.has then 1 else 0])])
  {
    hide Ordered, AddressedInOrder, Held;
  }

  lemma InfoFrame(b: Bus, e: Enum, m: Message)
    requires BusFine(b, e) && 2 <= m.dest < DEVICE_HIGH_ADDRESS && m == AddrInfo(m.dest)
    ensures Carriable(m)
    ensures var (b', out) := Deliver(b, m);
      b' == b && (forall r :: r in out ==> AckFine(b', r))
  {
    BroadcastEach(b.devices, m);
    var ds' := Broadcast(b.devices, m).0;
    forall i | 0 <= i < |b.devices|
      ensures ds'[i] == b.devices[i]
      ensures forall r :: r in OnMessage(b.devices[i], m).1 ==> AckFine(b, r)
    {
    }
    assert ds' == b.devices;
    hide Ordered, AddressedInOrder, Broadcast;
  }

  /** The devices with address a let go of the token. */
  predicate Released(ds: seq<Device>, ds': seq<Device>, a: int) {
    |ds| == |ds'| && forall i :: 0 <= i < |ds| ==> ds'[i] == if ds[i].address == a then ds[i].(keep := false) else ds[i]
  }

  lemma ReleasedFine(b: Bus, b': Bus, e: Enum, a: int)
    requires BusFine(b, e) && Released(b.devices, b'.devices, a) && b'.gw == b.gw && a != -1
    requires Settling(e) ==> a != e.next
    ensures BusFine(b', e)
    ensures AllReleased(b.devices) ==> AllReleased(b'.devices)
  {
    assert forall i :: 0 <= i < |b.devices| ==>
      b'.devices[i].address == b.devices[i].address && b'.devices[i].has == b.devices[i].has;
    assert forall i :: 0 <= i < |b.devices| && !b.devices[i].keep ==> !b'.devices[i].keep;
  }

  lemma ReleaseOne(d: Device, m: Message)
    requires 2 <= m.dest < DEVICE_HIGH_ADDRESS && m == TokAdvance(m.dest)
    ensures Carriable(m)
    ensures OnMessage(d, m) ==
      if d.address == m.dest then (d.(keep := false), [AckFrom(m.dest, DIRECTOR)]) else (d, [])
  {}

  lemma AckOf(a: byte)
    requires a < 0x80
    ensures AckFrom(a, DIRECTOR).IsAck() && AckFrom(a, DIRECTOR).From() == a
  {}

  lemma ReleaseBroadcast(ds: seq<Device>, m: Message)
    requires 2 <= m.dest < DEVICE_HIGH_ADDRESS && m == TokAdvance(m.dest)
    ensures Carriable(m)
    ensures var (ds', out) := Broadcast(ds, m);
      && Released(ds, ds', m.dest)
      && forall r :: r in out ==>
        r.IsAck() && r.From() == m.dest && exists i :: 0 <= i < |ds| && ds[i].address == m.dest
  {
    ReleaseOne(Device(0, false, false, 0), m);
    BroadcastEach(ds, m);
    AckOf(m.dest);
    hide Broadcast, OnMessage, AckFrom;
    var (ds', out) := Broadcast(ds, m);
    forall i | 0 <= i < |ds|
      ensures ds'[i] == if ds[i].address == m.dest then ds[i].(keep := false) else ds[i]
    {
      ReleaseOne(ds[i], m);
    }
    forall r | r in out
      ensures r.IsAck() && r.From() == m.dest && exists i :: 0 <= i < |ds| && ds[i].address == m.dest
    {
      var i :| 0 <= i < |ds| && r in OnMessage(ds[i], m).1;
      ReleaseOne(ds[i], m);
      assert ds[i].address == m.dest;
    }
  }

  lemma ReleaseFrame(b: Bus, e: Enum, m: Message)
    requires BusFine(b, e) && 2 <= m.dest < DEVICE_HIGH_ADDRESS && m == TokAdvance(m.dest)
    requires m.dest < e.next || (m.dest == e.next && e.state == AdvancingToken)
    ensures Carriable(m)
    ensures var (b', out) := Deliver(b, m);
      && BusFine(b', e) && b'.gw == b.gw && Released(b.devices, b'.devices, m.dest)
      && (AllReleased(b.devices) ==> AllReleased(b'.devices))
      && (forall r :: r in out ==> AckFine(b', r))
  {
    ReleaseBroadcast(b.devices, m);
    var (b', out) := Deliver(b, m);
    assert b'.gw == b.gw && b'.devices == Broadcast(b.devices, m).0;
    assert out == Broadcast(b.devices, m).1;
    hide Broadcast, BusFine, Deliver;
    ReleasedFine(b, b', e, m.dest);
    forall r | r in out
      ensures AckFine(b', r)
    {
      var i :| 0 <= i < |b.devices| && b.devices[i].address == m.dest;
      assert b'.devices[i].address == m.dest;
    }
  }

  // ----- Assigning an address -----

  /** The devices that hold the token and have no address take a. */
  predicate TookAddress(ds: seq<Device>, ds': seq<Device>, a: int) {
    |ds| == |ds'| && forall i :: 0 <= i < |ds| ==>
      ds'[i] == if ds[i].address == -1 && ds[i].has then ds[i].(address := a) else ds[i]
  }

  /** At most one device takes an address, and only when neither another one nor the gateway has it. */
  lemma OneTaker(b: Bus, e: Enum, i: nat)
    requires BusFine(b, e) && Settling(e) && i < |b.devices| && b.devices[i].address == -1 && b.devices[i].has
    ensures !AllReleased(b.devices) && !Held(b, e.next) && b.gw.address == -1
    ensures forall j :: 0 <= j < |b.devices| && j != i && b.devices[j].address == -1 ==> !b.devices[j].has
    ensures forall j :: 0 <= j < |b.devices| ==> (j < i <==> b.devices[j].address != -1)
  {
    var ds := b.devices;
    assert ds[i].keep;
    forall j | 0 <= j < |ds|
      ensures j < i <==> ds[j].address != -1
      ensures ds[j].address != e.next
    {
      if j < i {
        assert !ds[j].keep;
      }
    }
    forall j | 0 <= j < |ds| && j != i && ds[j].address == -1
      ensures !ds[j].has
    {
      assert !(j > i && ds[j].has);
    }
  }

  lemma TookFine(b: Bus, b': Bus, e: Enum)
    requires BusFine(b, e) && Settling(e) && e.next < DEVICE_HIGH_ADDRESS && 2 <= e.next
    requires TookAddress(b.devices, b'.devices, e.next)
    requires b'.gw == b.gw
    ensures BusFine(b', e)
    ensures AllReleased(b.devices) ==> b'.devices == b.devices
  {
    if i: nat :| i < |b.devices| && b.devices[i].address == -1 && b.devices[i].has {
      OneTaker(b, e, i);
      assert b'.devices == b.devices[i := b.devices[i].(address := e.next)];
      TookOne(b, b', e, i);
    } else {
      assert b'.devices == b.devices;
    }
  }

  lemma TookOne(b: Bus, b': Bus, e: Enum, i: nat)
    requires BusFine(b, e) && Settling(e) && 2 <= e.next < DEVICE_HIGH_ADDRESS && i < |b.devices|
    requires b.devices[i].address == -1 && b.devices[i].has && !Held(b, e.next) && b.gw.address == -1
    requires forall j :: 0 <= j < |b.devices| ==> (j < i <==> b.devices[j].address != -1)
    requires b' == b.(devices := b.devices[i := b.devices[i].(address := e.next)])
    ensures BusFine(b', e) && !AllReleased(b.devices)
  {
    assert b.devices[i].keep;
    assert forall j :: 0 <= j < |b.devices| ==>
      b'.devices[j].keep == b.devices[j].keep && b'.devices[j].has == b.devices[j].has;
    assert forall j :: 0 <= j < |b.devices| && j != i ==> b'.devices[j] == b.devices[j];
  }

  lemma AssignOne(d: Device, a: byte)
    requires 2 <= a < DEVICE_HIGH_ADDRESS
    ensures OnMessage(d, AddrAssign(a)) ==
      if d.address == -1 && d.has then (d.(address := a), [AckFrom(a, DIRECTOR)]) else (d, [])
  {}

  lemma AssignBroadcast(ds: seq<Device>, a: byte)
    requires 2 <= a < DEVICE_HIGH_ADDRESS
    ensures Carriable(AddrAssign(a))
    ensures var (ds', out) := Broadcast(ds, AddrAssign(a));
      && TookAddress(ds, ds', a)
      && forall r :: r in out ==> r.IsAck() && r.From() == a && exists i :: 0 <= i < |ds'| && ds'[i].address == a
  {
    var m := AddrAssign(a);
    BroadcastEach(ds, m);
    AckOf(a);
    hide Broadcast, OnMessage, AckFrom;
    var (ds', out) := Broadcast(ds, m);
    forall i | 0 <= i < |ds|
      ensures ds'[i] == if ds[i].address == -1 && ds[i].has then ds[i].(address := a) else ds[i]
    {
      AssignOne(ds[i], a);
    }
    forall r | r in out
      ensures r.IsAck() && r.From() == a && exists i :: 0 <= i < |ds'| && ds'[i].address == a
    {
      var i :| 0 <= i < |ds| && r in OnMessage(ds[i], m).1;
      AssignOne(ds[i], a);
      assert ds'[i].address == a;
    }
  }

  /** The gateway can only take the address when it has the token, and then no device has it. */
  lemma GatewayTakes(b: Bus, e: Enum)
    requires BusFine(b, e) && Settling(e) && 2 <= e.next < DEVICE_HIGH_ADDRESS && AllReleased(b.devices)
    ensures BusFine(b.(gw := b.gw.(address := e.next)), e)
  {
    hide Ordered, AddressedInOrder;
  }

  lemma AssignFrame(b: Bus, e: Enum)
    requires BusFine(b, e) && RingFine(b) && Settling(e) && 2 <= e.next < DEVICE_HIGH_ADDRESS
    ensures Carriable(AddrAssign(e.next))
    ensures var (b', out) := Deliver(b, AddrAssign(e.next));
      && BusFine(b', e) && RingFine(b')
      && (forall r :: r in out ==> AckFine(b', r))
  {
    var m := AddrAssign(e.next);
    AssignBroadcast(b.devices, e.next);
    AckOf(e.next);
    var (ds', out1) := Broadcast(b.devices, m);
    var (gw', out2) := GatewayAsDevice(b.gw, m);
    var (b', out) := Deliver(b, m);
    assert b' == Bus(gw', ds') && out == out1 + out2;
    hide Broadcast, Deliver, AckFrom;
    TookFine(b, Bus(b.gw, ds'), e);
    if gw' != b.gw {
      GatewayTakes(b, e);
    }
    assert out2 == [] || out2 == [AckFrom(e.next, DIRECTOR)];
    hide BusFine, TookAddress, GatewayAsDevice;
    AssignAcks(b', out1, out2, e.next);
  }

  lemma AssignAcks(b: Bus, out1: seq<Reply>, out2: seq<Reply>, a: byte)
    requires forall r :: r in out1 ==>
      r.IsAck() && r.From() == a && exists i :: 0 <= i < |b.devices| && b.devices[i].address == a
    requires out2 == [] || (b.gw.address == a && forall r :: r in out2 ==> r.IsAck() && r.From() == a)
    ensures forall r :: r in out1 + out2 ==> AckFine(b, r)
  {
    forall r | r in out1 + out2
      ensures AckFine(b, r)
    {
      if r in out1 {
        var i :| 0 <= i < |b.devices| && b.devices[i].address == a;
        assert Held(b, a);
      }
    }
  }

  // ----- The whole invariant -----

  predicate UnderWay(e: Enum) { e.state != Idle && e.state != KillingToken && e.state != Resetting }

  /** The first token has not been made yet. */
  predicate NotStarted(s: Lossy) {
    && s.acks == [] && s.e.state == Enumerating
    && ((s.inFlight == None && s.queue == [GenToken(), ReqToken(), HaveToken()])
        || (s.inFlight == Some(GenToken()) && s.queue == [ReqToken(), HaveToken()]))
  }

  predicate AllFramesFine(s: Lossy) {
    && (forall m :: m in s.queue ==> FrameFine(s.e, m))
    && (s.inFlight.Some? ==> FrameFine(s.e, s.inFlight.value))
  }

  /** An assignment still queued is the only one, and its address is nobody's yet. */
  predicate OneAssignment(s: Lossy) {
    && (forall i, j :: 0 <= i < j < |s.queue| && IsAssign(s.queue[i]) ==> !IsAssign(s.queue[j]))
    && (forall i :: 0 <= i < |s.queue| && IsAssign(s.queue[i]) ==>
          && (s.inFlight.Some? ==> !IsAssign(s.inFlight.value))
          && !Held(s.bus, s.e.next)
          && forall r :: r in s.acks ==> r.From() != s.e.next)
  }

  predicate Inv(s: Lossy) {
    && WellFormed(s.e) && UnderWay(s.e)
    && BusFine(s.bus, s.e) && (RingFine(s.bus) || NotStarted(s))
    && AllFramesFine(s) && OneAssignment(s)
    && forall r :: r in s.acks ==> AckFine(s.bus, r)
  }

  /** What the bus does to a frame it may see. */
  lemma AnyFrame(b: Bus, e: Enum, m: Message)
    requires WellFormed(e) && BusFine(b, e) && FrameFine(e, m) && (RingFine(b) || m == GenToken())
    ensures Carriable(m)
    ensures var (b', out) := Deliver(b, m);
      && BusFine(b', e) && (RingFine(b') || (b'.gw.has && !b'.gw.keep))
      && (forall r :: r in out ==> AckFine(b', r))
      && (forall a :: a != -1 && Held(b, a) ==> Held(b', a))
      && (!IsAssign(m) ==> forall a :: Held(b', a) ==> Held(b, a))
  {
    hide BusFine, AckFine, Deliver;
    if IsGatewayFrame(m) {
      GatewayFrame(b, e, m);
    } else if m == AddrAssign(e.next) && Settling(e) {
      AssignFrame(b, e);
      AssignHolds(b, e);
    } else if m == AddrInfo(m.dest) {
      InfoFrame(b, e, m);
    } else {
      ReleaseFrame(b, e, m);
      ReleaseHolds(b, Deliver(b, m).0, m.dest);
    }
  }

  lemma ReleaseHolds(b: Bus, b': Bus, d: int)
    requires Released(b.devices, b'.devices, d) && b'.gw == b.gw
    ensures forall a :: Held(b, a) <==> Held(b', a)
  {
    assert forall i :: 0 <= i < |b.devices| ==> b'.devices[i].address == b.devices[i].address;
  }

  lemma AssignHolds(b: Bus, e: Enum)
    requires BusFine(b, e) && Settling(e) && 2 <= e.next < DEVICE_HIGH_ADDRESS
    ensures forall a :: a != -1 && Held(b, a) ==> Held(Deliver(b, AddrAssign(e.next)).0, a)
  {
    AssignBroadcast(b.devices, e.next);
    var b' := Deliver(b, AddrAssign(e.next)).0;
    assert b'.devices == Broadcast(b.devices, AddrAssign(e.next)).0;
    hide Broadcast;
    assert forall i :: 0 <= i < |b.devices| && b.devices[i].address != -1 ==> b'.devices[i] == b.devices[i];
  }

  lemma ExchangeFine(b: Bus, e: Enum, m: Message, extra: nat)
    requires WellFormed(e) && BusFine(b, e) && FrameFine(e, m) && (RingFine(b) || m == GenToken())
    ensures Carriable(m)
    ensures var (b', out) := Exchange(b, m, extra);
      && BusFine(b', e) && RingFine(b')
      && (forall r :: r in out ==> AckFine(b', r))
      && (forall a :: a != -1 && Held(b, a) ==> Held(b', a))
      && (!IsAssign(m) ==> forall a :: Held(b', a) ==> Held(b, a))
  {
    AnyFrame(b, e, m);
    var (b1, out) := Deliver(b, m);
    assert Ordered(b1.devices);
    hide Deliver, Ordered, AddressedInOrder, AddressesFine, Held, FrameFine, AdvanceTimes;
    AdvanceTimesRing(b1, 1 + extra);
    SameButFine(b1, AdvanceTimes(b1, 1 + extra), e);
  }

  lemma ArrivesStep(s: Lossy, ev: Event)
    requires Inv(s) && Possible(s, ev) && ev.Arrives?
    ensures Inv(Step(s, ev))
  {
    var m := s.inFlight.value;
    ExchangeFine(s.bus, s.e, m, ev.extra);
    var s' := Step(s, ev);
    var out := Exchange(s.bus, m, ev.extra).1;
    assert s'.acks == s.acks + out && s'.e == s.e && s'.queue == s.queue && s'.inFlight == s.inFlight;
    hide Exchange, BusFine, RingFine, FrameFine, Held, WellFormed, IsAssign;
    forall r | r in s'.acks
      ensures AckFine(s'.bus, r)
    {
      if r in s.acks {
        assert AckFine(s.bus, r);
      }
    }
    assert s.e.next != 1;
  }

  lemma TickStep(s: Lossy)
    requires Inv(s)
    ensures Inv(Step(s, Tick))
  {
    var b, b' := s.bus, Advance(s.bus);
    if RingFine(b) {
      AdvanceRing(b);
    } else {
      AdvanceOrdered(b);
    }
    assert Ordered(b.devices) && Ordered(b'.devices);
    hide Advance, Ordered, AddressedInOrder, AddressesFine, FrameFine, Held, SameBut;
    SameButFine(b, b', s.e);
  }

  lemma LoadStep(s: Lossy)
    requires Inv(s) && Possible(s, Load)
    ensures Inv(Step(s, Load))
  {
    hide BusFine, RingFine, FrameFine, Held, WellFormed, IsAssign, AckFine;
    var s' := Step(s, Load);
    assert forall i :: 0 <= i < |s'.queue| ==> s'.queue[i] == s.queue[i + 1];
    assert s.queue[0] in s.queue;
  }

  lemma AckGone(s: Lossy)
    requires Inv(s) && s.acks != []
    ensures Inv(s.(acks := s.acks[1..]))
  {
    hide BusFine, RingFine, FrameFine, Held, WellFormed, IsAssign, AckFine;
  }

  // ----- An ack reaches the state machine -----

  /** Every way an ack can move the state machine once the bus is reset. */
  predicate Moved(e: Enum, e': Enum, sent: seq<Message>, from: byte) {
    || (e'.next == e.next && sent == [] && (e'.state == e.state || (e.state == FetchingClasses && e'.state == Done)
                                             || (e.state == Enumerating && e'.state == Exited)))
    || (e'.next == e.next && e'.state == e.state == FetchingClasses && |sent| == 1
      && 2 <= sent[0].dest < DEVICE_HIGH_ADDRESS
        && sent == [AddrInfo(sent[0].dest)])
    || (e.state == Enumerating && Settling(e') && e'.next == e.next < DEVICE_HIGH_ADDRESS
      && sent == [AddrAssign(e.next)])
    || (from == e.next == e'.next < DEVICE_HIGH_ADDRESS && e.state == SettingAddr && e'.state == AdvancingToken
        && sent == [TokAdvance(e.next)])
    || (from == e.next && e'.next == e.next + 1 && e.state == SettingGwAddr && e'.state == FetchingClasses
        && sent == [UseToken(true), GenToken(), AddrInfo(2)])
    || (from == e.next && e'.next == e.next + 1 && e.state == AdvancingToken && e'.state == Enumerating
      && sent == [HaveToken()])
  }

  lemma ReplyMoves(e: Enum, r: Reply)
    requires WellFormed(e) && UnderWay(e)
    ensures Moved(e, OnReply(e, r).e, OnReply(e, r).sent, r.From()) && UnderWay(OnReply(e, r).e)
  {
    hide AddedUpTo;
  }

  /** Nobody has the current address unless the machine is busy with it. */
  lemma NextIsFree(b: Bus, e: Enum)
    requires AddressesFine(b, e) && !Settling(e) && e.state != AdvancingToken && e.next >= 2
    ensures !Held(b, e.next)
  {}

  lemma BusFineMoved(b: Bus, e: Enum, e': Enum, sent: seq<Message>, from: byte)
    requires BusFine(b, e) && WellFormed(e) && WellFormed(e') && Moved(e, e', sent, from)
    ensures BusFine(b, e')
  {
    if Settling(e') && !Settling(e) {
      NextIsFree(b, e);
    }
    hide Ordered, AddressedInOrder, AllReleased;
    assert forall a :: Taken(e, a) ==> Taken(e', a);
  }

  /** A frame that was in play stays legitimate, unless it is an assignment that has been answered. */
  lemma FrameFineMoved(e: Enum, e': Enum, sent: seq<Message>, from: byte, m: Message)
    requires Moved(e, e', sent, from) && FrameFine(e, m) && (IsAssign(m) ==> from != e.next)
    ensures FrameFine(e', m)
  {}

  lemma SentFine(e: Enum, e': Enum, sent: seq<Message>, from: byte)
    requires Moved(e, e', sent, from) && WellFormed(e) && WellFormed(e')
    ensures forall m :: m in sent ==> FrameFine(e', m)
    ensures forall i :: 0 <= i < |sent| && IsAssign(sent[i]) ==>
      |sent| == 1 && e.state == Enumerating && e'.next == e.next
  {}

  lemma AckStep(s: Lossy)
    requires Inv(s) && s.acks != [] && s.inFlight.Some?
    ensures Inv(Step(s, AckArrives))
  {
    var r := s.acks[0];
    var e, e', sent := s.e, OnReply(s.e, r).e, OnReply(s.e, r).sent;
    var s' := Step(s, AckArrives);
    assert r in s.acks;
    ReplyMoves(e, r);
    OnReplyWellFormed(e, r);
    assert s' == s.(e := e', queue := s.queue + sent, inFlight := None, acks := s.acks[1..]);
    hide OnReply, BusFine, RingFine, WellFormed, AckFine;
    assert RingFine(s.bus);
    BusFineMoved(s.bus, e, e', sent, r.From());
    QueueMoved(s, s', sent);
    AssignmentMoved(s, s', sent);
    hide Moved, AllFramesFine, OneAssignment, UnderWay;
    assert forall x :: x in s'.acks ==> x in s.acks;
  }

  lemma QueueMoved(s: Lossy, s': Lossy, sent: seq<Message>)
    requires WellFormed(s.e) && WellFormed(s'.e) && AllFramesFine(s) && OneAssignment(s) && s.acks != []
    requires s' == s.(e := s'.e, queue := s.queue + sent, inFlight := None, acks := s.acks[1..])
    requires Moved(s.e, s'.e, sent, s.acks[0].From())
    ensures AllFramesFine(s')
  {
    var from := s.acks[0].From();
    SentFine(s.e, s'.e, sent, from);
    hide Moved, FrameFine, WellFormed, IsAssign, Held;
    assert s.acks[0] in s.acks;
    forall m | m in s'.queue
      ensures FrameFine(s'.e, m)
    {
      if m in s.queue {
        var i :| 0 <= i < |s.queue| && s.queue[i] == m;
        assert IsAssign(s.queue[i]) ==> from != s.e.next;
        FrameFineMoved(s.e, s'.e, sent, from, m);
      }
    }
  }

  lemma AssignIsNext(e: Enum, m: Message)
    requires FrameFine(e, m) && IsAssign(m)
    ensures Settling(e)
  {}

  lemma AssignmentMoved(s: Lossy, s': Lossy, sent: seq<Message>)
    requires WellFormed(s.e) && WellFormed(s'.e) && AllFramesFine(s) && OneAssignment(s) && s.acks != []
    requires BusFine(s.bus, s.e) && forall r :: r in s.acks ==> AckFine(s.bus, r)
    requires s' == s.(e := s'.e, queue := s.queue + sent, inFlight := None, acks := s.acks[1..])
    requires Moved(s.e, s'.e, sent, s.acks[0].From())
    ensures OneAssignment(s')
  {
    SentFine(s.e, s'.e, sent, s.acks[0].From());
    QueueMoved(s, s', sent);
    assert s.acks[0] in s.acks;
    if i: nat :| i < |sent| && IsAssign(sent[i]) {
      NextIsFree(s.bus, s.e);
      NoneQueued(s);
      hide FrameFine, Moved, Held, IsAssign;
      assert forall r :: r in s.acks ==> r.From() != s.e.next;
    } else {
      forall i | 0 <= i < |s'.queue| && IsAssign(s'.queue[i])
        ensures i < |s.queue| && s'.e.next == s.e.next
      {
        assert s'.queue[i] in s'.queue;
        AssignIsNext(s'.e, s'.queue[i]);
      }
      hide FrameFine, Moved, Held, IsAssign;
    }
  }

  lemma NoneQueued(s: Lossy)
    requires AllFramesFine(s) && s.e.state == Enumerating
    ensures forall i :: 0 <= i < |s.queue| ==> !IsAssign(s.queue[i])
  {
    forall i | 0 <= i < |s.queue|
      ensures !IsAssign(s.queue[i])
    {
      assert s.queue[i] in s.queue;
    }
  }

  lemma InvStep(s: Lossy, ev: Event)
    requires Inv(s) && Possible(s, ev)
    ensures Inv(Step(s, ev))
  {
    match ev
    case Load => LoadStep(s);
    case Arrives(_) => ArrivesStep(s, ev);
    case Vanishes =>
    case AckArrives =>
      if s.inFlight.None? {
        AckGone(s);
      } else {
        AckStep(s);
      }
    case AckVanishes => AckGone(s);
    case Tick => TickStep(s);
  }

  // ----- Runs -----

  lemma StepWellFormed(s: Lossy, ev: Event)
    requires WellFormed(s.e) && Possible(s, ev)
    ensures WellFormed(Step(s, ev).e)
  {
    hide WellFormed, OnReply, Exchange;
    if s.acks != [] {
      OnReplyWellFormed(s.e, s.acks[0]);
    }
  }

  predicate LegalRun(s: Lossy, events: seq<Event>)
    requires WellFormed(s.e)
    decreases |events|
  {
    events == [] || (Possible(s, events[0])
      && (StepWellFormed(s, events[0]); LegalRun(Step(s, events[0]), events[1..])))
  }

  function After(s: Lossy, events: seq<Event>): (r: Lossy)
    requires WellFormed(s.e) && LegalRun(s, events)
    ensures WellFormed(r.e)
    decreases |events|
  {
    if events == [] then s else
      StepWellFormed(s, events[0]);
      After(Step(s, events[0]), events[1..])
  }

  lemma {:induction false} RunInv(s: Lossy, events: seq<Event>)
    requires Inv(s) && LegalRun(s, events)
    ensures Inv(After(s, events))
    decreases |events|
  {
    if events != [] {
      InvStep(s, events[0]);
      StepWellFormed(s, events[0]);
      hide Inv, Possible, Step, WellFormed;
      RunInv(Step(s, events[0]), events[1..]);
    }
  }

  /** The EV_BUS_RESET transition on a bus where all devices are reset and without token. */
  predicate JustReset(s: Lossy) {
    && WellFormed(s.e) && s.e.state == Enumerating && s.e.next == 2
    && s.queue == [GenToken(), ReqToken(), HaveToken()] && s.inFlight == None && s.acks == []
    && s.bus.gw.address == -1
    && forall i :: 0 <= i < |s.bus.devices| ==>
         s.bus.devices[i] == Device(-1, false, true, s.bus.devices[i].cls)
  }

  lemma StartInv(s: Lossy)
    requires JustReset(s)
    ensures Inv(s)
  {
    assert NotStarted(s);
  }

  lemma ReachableInv(s: Lossy, events: seq<Event>)
    requires JustReset(s) && LegalRun(s, events)
    ensures Inv(After(s, events))
  {
    StartInv(s);
    hide Inv, JustReset;
    RunInv(s, events);
  }

  /** Whatever is lost, repeated or late: no address is ever held twice, in the ring or by the gateway. */
  lemma AddressesAreUnique(s: Lossy, events: seq<Event>)
    requires JustReset(s) && LegalRun(s, events)
    ensures var b := After(s, events).bus;
      && (forall i, j :: 0 <= i < j < |b.devices| && b.devices[i].address != -1 ==>
            b.devices[i].address != b.devices[j].address)
      && (forall i :: 0 <= i < |b.devices| && b.devices[i].address != -1 ==>
            2 <= b.devices[i].address <= 127 && b.devices[i].address != b.gw.address)
      && (b.gw.address == -1 || 2 <= b.gw.address <= 127)
  {
    var b := After(s, events).bus;
    ReachableInv(s, events);
    hide After, LegalRun, JustReset, WellFormed, AllFramesFine, OneAssignment, RingFine, NotStarted, AckFine;
  }

  /** HAVE_TOKEN is answered with 1 only once every device has let go of the token,
      and then every device has an address. */
  lemma TokenAtGatewayMeansAllReleased(s: Lossy, events: seq<Event>)
    requires JustReset(s) && LegalRun(s, events)
    requires After(s, events).inFlight == Some(HaveToken())
    ensures var b := After(s, events).bus;
      && Carriable(HaveToken())
      && (Deliver(b, HaveToken()).1 == [Reply(0x81, 1, [1])] ==>
            forall i :: 0 <= i < |b.devices| ==> !b.devices[i].keep && b.devices[i].address != -1)
      && (Deliver(b, HaveToken()).1 != [Reply(0x81, 1, [1])] ==> Deliver(b, HaveToken()).1 == [Reply(0x81, 1, [0])])
  {
    var t := After(s, events);
    ReachableInv(s, events);
    hide After, LegalRun, JustReset, WellFormed, AllFramesFine, OneAssignment, AckFine;
    assert HaveToken() != GenToken();
    GatewayFrame(t.bus, t.e, HaveToken());
    hide Deliver, AddressesFine;
  }
}
