/** Enumeration as a closed protocol: the state machine against the bus, every request answered once. */
module EnumCompletes {
  import opened Bytes
  import opened Encoding
  import opened EnumFsm
  import opened BusModel
  import opened Token

  /** The state machine, the frames it has queued, and the bus. */
  datatype System = System(e: Enum, queue: seq<Message>, bus: Bus)

  /** The next queued frame draws exactly one answer. */
  predicate Answered(s: System) {
    && WellFormed(s.e) && s.queue != [] && Carriable(s.queue[0])
    && |Deliver(s.bus, s.queue[0]).1| == 1
  }

  /** One frame goes out, the bus acts on it and moves the token at least once,
      and the answer retires the frame and goes to the state machine. */
  function Round(s: System, extra: nat): System
    requires Answered(s)
  {
    var (bus, replies) := Exchange(s.bus, s.queue[0], extra);
    var r := OnReply(s.e, replies[0]);
    System(r.e, s.queue[1..] + r.sent, bus)
  }

  /** As many rounds as `extras` is long, if every frame in turn is answered once. */
  function Rounds(s: System, extras: seq<nat>): Option<System>
    decreases |extras|
  {
    if extras == [] then Some(s)
    else if !Answered(s) then None
    else Rounds(Round(s, extras[0]), extras[1..])
  }

  lemma {:induction false} RoundsAppend(s: System, x: seq<nat>, y: seq<nat>)
    ensures Rounds(s, x + y) == if Rounds(s, x).None? then None else Rounds(Rounds(s, x).value, y)
    decreases |x|
  {
    hide Answered, Round;
    if x == [] {
      assert x + y == y;
    } else {
      assert (x + y)[1..] == x[1..] + y;
      if Answered(s) {
        RoundsAppend(Round(s, x[0]), x[1..], y);
      }
    }
  }

  lemma OneRound(s: System, extra: nat)
    requires Answered(s)
    ensures Rounds(s, [extra]) == Some(Round(s, extra))
  {
    hide Answered, Round;
    assert [extra][1..] == [];
  }

  // ----- What a frame does to the devices -----

  /** Only device j, if any, reacts to m. */
  predicate Silent(d: Device, m: Message)
    requires Carriable(m)
  {
    OnMessage(d, m) == (d, [])
  }

  lemma {:induction false} BroadcastNone(ds: seq<Device>, m: Message)
    requires Carriable(m) && forall i :: 0 <= i < |ds| ==> Silent(ds[i], m)
    ensures Broadcast(ds, m) == (ds, [])
    decreases |ds|
  {
    hide OnMessage, Carriable;
    if ds != [] {
      HeadTail(ds);
      assert Silent(ds[0], m);
      BroadcastNone(ds[1..], m);
      var out: seq<Reply> := [];
      assert out + out == out;
    }
  }

  lemma {:induction false} BroadcastOne(ds: seq<Device>, m: Message, j: nat)
    requires Carriable(m) && j < |ds|
    requires forall i :: 0 <= i < |ds| && i != j ==> Silent(ds[i], m)
    ensures Broadcast(ds, m) == (ds[j := OnMessage(ds[j], m).0], OnMessage(ds[j], m).1)
    decreases |ds|
  {
    hide OnMessage, Carriable;
    var (d, out) := OnMessage(ds[j], m);
    if j == 0 {
      BroadcastNone(ds[1..], m);
      assert ds[0 := d] == [d] + ds[1..];
      assert out + [] == out;
    } else {
      assert Silent(ds[0], m);
      BroadcastOne(ds[1..], m, j - 1);
      assert ds[j := d] == [ds[0]] + ds[1..][j - 1 := d];
      assert [] + out == out;
    }
  }

  // ----- The ring while addresses are handed out -----

  /** The first `a` devices have addresses 2, 3, ...; those from `k` on keep the token;
      the token is at place p. */
  function Ring(cls: seq<byte>, a: nat, k: nat, p: nat): (r: seq<Device>)
    ensures |r| == |cls|
    ensures forall i :: 0 <= i < |cls| ==> r[i] == Device(if i < a then i + 2 else -1, i == p, i >= k, cls[i])
  {
    seq(|cls|, i requires 0 <= i < |cls| => Device(if i < a then i + 2 else -1, i == p, i >= k, cls[i]))
  }

  function RingBus(cls: seq<byte>, a: nat, k: nat, p: nat, gw: Gateway): Bus {
    Bus(gw.(has := p == |cls|), Ring(cls, a, k, p))
  }

  lemma RingAt(cls: seq<byte>, a: nat, k: nat, p: nat, gw: Gateway)
    requires p <= |cls|
    ensures At(RingBus(cls, a, k, p, gw), p) == RingBus(cls, a, k, p, gw)
    ensures forall q: nat :: q <= |cls| ==> At(RingBus(cls, a, k, p, gw), q) == RingBus(cls, a, k, q, gw)
    ensures KeepsAt(RingBus(cls, a, k, p, gw), p) == if p == |cls| then gw.keep else p >= k
  {
    var b := RingBus(cls, a, k, p, gw);
    forall q: nat | q <= |cls|
      ensures At(b, q) == RingBus(cls, a, k, q, gw)
    {
      assert Place(b.devices, q) == Ring(cls, a, k, q);
    }
  }

  lemma RingAdvance(cls: seq<byte>, a: nat, k: nat, p: nat, gw: Gateway)
    requires p <= |cls|
    ensures var keeps := if p == |cls| then gw.keep else p >= k;
      Advance(RingBus(cls, a, k, p, gw)) ==
      RingBus(cls, a, k, if keeps then p else if p == |cls| then 0 else p + 1, gw)
  {
    hide Ring, Place, Advance;
    RingAt(cls, a, k, p, gw);
    AdvanceAt(RingBus(cls, a, k, p, gw), p);
  }

  /** A token that is kept where it is stays there. */
  lemma {:induction false} RingRests(cls: seq<byte>, a: nat, k: nat, p: nat, gw: Gateway, n: nat)
    requires p <= |cls| && (if p == |cls| then gw.keep || p == 0 else p >= k)
    ensures AdvanceTimes(RingBus(cls, a, k, p, gw), n) == RingBus(cls, a, k, p, gw)
    decreases n
  {
    hide RingBus, Advance;
    if n > 0 {
      RingAdvance(cls, a, k, p, gw);
      RingRests(cls, a, k, p, gw, n - 1);
    }
  }

  /** A token that is not kept moves one place, where it is kept. */
  lemma RingMoves(cls: seq<byte>, a: nat, k: nat, p: nat, gw: Gateway, extra: nat)
    requires p < |cls| && p + 1 == k && gw.keep
    ensures AdvanceTimes(RingBus(cls, a, k, p, gw), 1 + extra) == RingBus(cls, a, k, p + 1, gw)
  {
    hide RingBus, Advance;
    RingAdvance(cls, a, k, p, gw);
    RingRests(cls, a, k, p + 1, gw, extra);
  }

  /** A fresh token goes from the gateway to the first place. */
  lemma RingEnters(cls: seq<byte>, gw: Gateway, extra: nat)
    requires !gw.keep
    ensures AdvanceTimes(RingBus(cls, 0, 0, |cls|, gw), 1 + extra) == RingBus(cls, 0, 0, 0, gw)
  {
    hide RingBus, Advance;
    RingAdvance(cls, 0, 0, |cls|, gw);
    RingRests(cls, 0, 0, 0, gw, extra);
  }

  // ----- Handing out addresses -----

  /** k devices have their addresses, the token waits at the next one, and HAVE_TOKEN is queued. */
  predicate Asking(s: System, cls: seq<byte>, k: nat, gw: Gateway) {
    && k <= |cls| && k + 2 <= DEVICE_HIGH_ADDRESS && gw.keep && gw.address == -1
    && s.bus == RingBus(cls, k, k, k, gw)
    && s.queue == [HaveToken()]
    && WellFormed(s.e) && s.e.state == Enumerating && s.e.next == k + 2 && s.e.added == map[]
  }

  /** The address is on its way to the device (or gateway) that holds the token. */
  predicate Assigning(s: System, cls: seq<byte>, k: nat, gw: Gateway) {
    && k <= |cls| && k + 2 < DEVICE_HIGH_ADDRESS && gw.keep && gw.address == -1
    && s.bus == RingBus(cls, k, k, k, gw)
    && s.queue == [AddrAssign(k + 2)]
    && WellFormed(s.e) && s.e.state == (if k < |cls| then SettingAddr else SettingGwAddr)
    && s.e.next == k + 2 && s.e.added == map[]
  }

  /** Device k has its address and is being told to let go of the token. */
  predicate Releasing(s: System, cls: seq<byte>, k: nat, gw: Gateway) {
    && k < |cls| && k + 2 < DEVICE_HIGH_ADDRESS && gw.keep && gw.address == -1
    && s.bus == RingBus(cls, k + 1, k, k, gw)
    && s.queue == [TokAdvance(k + 2)]
    && WellFormed(s.e) && s.e.state == AdvancingToken && s.e.next == k + 2 && s.e.added == map[]
  }

  lemma AskRound(s: System, cls: seq<byte>, k: nat, gw: Gateway, extra: nat)
    requires Asking(s, cls, k, gw)
    ensures Answered(s)
    ensures k + 2 < DEVICE_HIGH_ADDRESS ==> Assigning(Round(s, extra), cls, k, gw)
    ensures k + 2 >= DEVICE_HIGH_ADDRESS ==> Round(s, extra).e.state == Exited
  {
    RingRests(cls, k, k, k, gw, 1 + extra);
    hide Ring, AdvanceTimes, AddedUpTo;
    assert [HaveToken()][1..] == [];
  }

  /** Only the device at index k listens to an address assignment: it alone has the token and no address. */
  lemma AssignBroadcast(cls: seq<byte>, k: nat)
    requires k <= |cls| && k + 2 < DEVICE_HIGH_ADDRESS
    ensures Broadcast(Ring(cls, k, k, k), AddrAssign(k + 2)) ==
      if k < |cls| then (Ring(cls, k + 1, k, k), [AckFrom(k + 2, DIRECTOR)]) else (Ring(cls, k, k, k), [])
  {
    var ds, m := Ring(cls, k, k, k), AddrAssign(k + 2);
    forall i | 0 <= i < |ds| && i != k ensures Silent(ds[i], m) {}
    hide AckFrom;
    if k < |cls| {
      BroadcastOne(ds, m, k);
      assert OnMessage(ds[k], m) == (ds[k].(address := k + 2), [AckFrom(k + 2, DIRECTOR)]);
      assert ds[k := ds[k].(address := k + 2)] == Ring(cls, k + 1, k, k);
    } else {
      BroadcastNone(ds, m);
    }
  }

  lemma AssignRound(s: System, cls: seq<byte>, k: nat, gw: Gateway, extra: nat)
    requires Assigning(s, cls, k, gw) && k < |cls|
    ensures Answered(s) && Releasing(Round(s, extra), cls, k, gw)
  {
    AssignBroadcast(cls, k);
    RingRests(cls, k + 1, k, k, gw, 1 + extra);
    hide Ring, AdvanceTimes, Broadcast, AddedUpTo;
    assert [AddrAssign(k + 2)][1..] == [];
    assert [AckFrom(k + 2, DIRECTOR)] + [] == [AckFrom(k + 2, DIRECTOR)];
  }

  /** Only the device with that address listens to a token advance. */
  lemma ReleaseBroadcast(cls: seq<byte>, k: nat)
    requires k < |cls| && k + 2 < DEVICE_HIGH_ADDRESS
    ensures Broadcast(Ring(cls, k + 1, k, k), TokAdvance(k + 2)) ==
      (Ring(cls, k + 1, k + 1, k), [AckFrom(k + 2, DIRECTOR)])
  {
    var ds, m := Ring(cls, k + 1, k, k), TokAdvance(k + 2);
    forall i | 0 <= i < |ds| && i != k ensures Silent(ds[i], m) {}
    hide AckFrom;
    BroadcastOne(ds, m, k);
    assert OnMessage(ds[k], m) == (ds[k].(keep := false), [AckFrom(k + 2, DIRECTOR)]);
    assert ds[k := ds[k].(keep := false)] == Ring(cls, k + 1, k + 1, k);
  }

  lemma ReleaseRound(s: System, cls: seq<byte>, k: nat, gw: Gateway, extra: nat)
    requires Releasing(s, cls, k, gw)
    ensures Answered(s) && Asking(Round(s, extra), cls, k + 1, gw)
  {
    ReleaseBroadcast(cls, k);
    RingMoves(cls, k + 1, k + 1, k, gw, extra);
    hide Ring, AdvanceTimes, Broadcast, AddedUpTo;
    assert [TokAdvance(k + 2)][1..] == [];
    assert [AckFrom(k + 2, DIRECTOR)] + [] == [AckFrom(k + 2, DIRECTOR)];
  }

  lemma TwoRounds(s: System, x: nat, y: nat)
    requires Answered(s) && Answered(Round(s, x))
    ensures Rounds(s, [x, y]) == Some(Round(Round(s, x), y))
  {
    hide Answered, Round;
    assert [x, y] == [x] + [y];
    OneRound(s, x);
    OneRound(Round(s, x), y);
    RoundsAppend(s, [x], [y]);
  }

  /** Three rounds give one more device its address and move the token on. */
  lemma OneDevice(s: System, cls: seq<byte>, k: nat, gw: Gateway, extras: seq<nat>)
    requires Asking(s, cls, k, gw) && k < |cls| && k + 2 < DEVICE_HIGH_ADDRESS && |extras| == 3
    ensures Rounds(s, extras).Some? && Asking(Rounds(s, extras).value, cls, k + 1, gw)
  {
    AskRound(s, cls, k, gw, extras[0]);
    hide Asking, Assigning, Releasing, Answered, Round;
    var s1 := Round(s, extras[0]);
    assert Assigning(s1, cls, k, gw);
    AssignRound(s1, cls, k, gw, extras[1]);
    var s2 := Round(s1, extras[1]);
    ReleaseRound(s2, cls, k, gw, extras[2]);
    TwoRounds(s, extras[0], extras[1]);
    OneRound(s2, extras[2]);
    assert extras == [extras[0], extras[1]] + [extras[2]];
    RoundsAppend(s, [extras[0], extras[1]], [extras[2]]);
  }

  lemma {:induction false} ManyDevices(s: System, cls: seq<byte>, k: nat, n: nat, gw: Gateway, extras: seq<nat>)
    requires Asking(s, cls, k, gw) && k <= n <= |cls| && n + 1 < DEVICE_HIGH_ADDRESS && |extras| == 3 * (n - k)
    ensures Rounds(s, extras).Some? && Asking(Rounds(s, extras).value, cls, n, gw)
    decreases n - k
  {
    if k < n {
      hide Asking, Rounds;
      assert extras == extras[..3] + extras[3..];
      OneDevice(s, cls, k, gw, extras[..3]);
      ManyDevices(Rounds(s, extras[..3]).value, cls, k + 1, n, gw, extras[3..]);
      RoundsAppend(s, extras[..3], extras[3..]);
    }
  }

  // ----- The start -----

  /** Right after the EV_BUS_RESET transition: all devices reset, no token on any of them. */
  predicate JustReset(s: System, cls: seq<byte>) {
    && WellFormed(s.e) && s.e.state == Enumerating && s.e.next == 2 && s.e.added == map[]
    && s.queue == [GenToken(), ReqToken(), HaveToken()]
    && s.bus.devices == Ring(cls, 0, 0, |cls|) && s.bus.gw.address == -1
  }

  lemma GenRound(s: System, cls: seq<byte>, extra: nat)
    requires JustReset(s, cls)
    ensures Answered(s)
    ensures var gw := s.bus.gw.(has := true, keep := false);
      Round(s, extra) == System(s.e, [ReqToken(), HaveToken()], RingBus(cls, 0, 0, 0, gw))
  {
    var gw := s.bus.gw.(has := true, keep := false);
    RingEnters(cls, gw, extra);
    hide Ring, AdvanceTimes;
    assert s.queue[1..] + [] == [ReqToken(), HaveToken()];
  }

  lemma ReqRound(s: System, cls: seq<byte>, gw: Gateway, extra: nat)
    requires WellFormed(s.e) && s.e.state == Enumerating && s.e.next == 2 && s.e.added == map[]
    requires s.queue == [ReqToken(), HaveToken()] && s.bus == RingBus(cls, 0, 0, 0, gw) && gw.address == -1
    ensures Answered(s) && Asking(Round(s, extra), cls, 0, gw.(keep := true))
  {
    RingRests(cls, 0, 0, 0, gw.(keep := true), 1 + extra);
    hide Ring, AdvanceTimes;
    assert s.queue[1..] + [] == [HaveToken()];
  }

  lemma FirstRounds(s: System, cls: seq<byte>, extras: seq<nat>) returns (gw: Gateway)
    requires JustReset(s, cls) && |extras| == 2
    ensures Rounds(s, extras).Some? && Asking(Rounds(s, extras).value, cls, 0, gw)
    ensures gw.cls == s.bus.gw.cls
  {
    gw := s.bus.gw.(has := true, keep := false);
    GenRound(s, cls, extras[0]);
    ReqRound(Round(s, extras[0]), cls, gw, extras[1]);
    hide Asking, Round, Answered, Rounds;
    TwoRounds(s, extras[0], extras[1]);
    assert extras == [extras[0], extras[1]];
    gw := gw.(keep := true);
  }

  // ----- Fetching the classes -----

  /** Every device has the address of its place in the ring; the gateway has the next one. */
  predicate Named(b: Bus, cls: seq<byte>, gwCls: byte) {
    && |b.devices| == |cls|
    && (forall i :: 0 <= i < |cls| ==> b.devices[i].address == i + 2 && b.devices[i].cls == cls[i])
    && b.gw.address == |cls| + 2 && b.gw.cls == gwCls
  }

  lemma {:induction false} RotateNames(ds: seq<Device>, onWire: bool)
    ensures forall i :: 0 <= i < |ds| ==>
      Rotate(ds, onWire).0[i].address == ds[i].address && Rotate(ds, onWire).0[i].cls == ds[i].cls
    decreases |ds|
  {
    if ds != [] {
      RotateNames(ds[1..], Juggle(ds[0], onWire).1);
    }
  }

  lemma {:induction false} AdvanceNames(b: Bus, n: nat, cls: seq<byte>, gwCls: byte)
    requires Named(b, cls, gwCls)
    ensures Named(AdvanceTimes(b, n), cls, gwCls)
    decreases n
  {
    if n > 0 {
      RotateNames(b.devices, b.gw.has);
      hide Rotate;
      AdvanceNames(Advance(b), n - 1, cls, gwCls);
    }
  }

  function ClassAt(cls: seq<byte>, gwCls: byte, a: nat): byte
    requires 2 <= a <= |cls| + 2
  {
    if a == |cls| + 2 then gwCls else cls[a - 2]
  }

  /** The classes of the addresses below a have been recorded, and a's is being asked for. */
  predicate Fetching(s: System, cls: seq<byte>, gwCls: byte, a: nat) {
    && 2 <= a <= |cls| + 2 < DEVICE_HIGH_ADDRESS
    && WellFormed(s.e) && s.e.state == FetchingClasses && s.e.added == map[]
    && s.e.next == |cls| + 3 && s.e.info == a + 1
    && s.queue == [AddrInfo(a)] && Named(s.bus, cls, gwCls)
    && forall x: nat :: 2 <= x < a ==> s.e.classes[x] == ClassAt(cls, gwCls, x)
  }

  /** All done: every address handed out is registered with the class of what has it. */
  ghost predicate Complete(s: System, cls: seq<byte>, gwCls: byte) {
    && s.e.state == Done && s.queue == [] && Named(s.bus, cls, gwCls)
    && (forall a: nat :: a in s.e.added <==> 2 <= a <= |cls| + 2)
    && (forall a: nat :: 2 <= a <= |cls| + 2 ==> s.e.added[a] == ClassAt(cls, gwCls, a))
  }

  lemma InfoOthers(b: Bus, cls: seq<byte>, gwCls: byte, a: nat)
    requires Named(b, cls, gwCls) && 2 <= a <= |cls| + 2 < DEVICE_HIGH_ADDRESS
    ensures Carriable(AddrInfo(a))
    ensures forall i :: 0 <= i < |cls| && i + 2 != a ==> Silent(b.devices[i], AddrInfo(a))
    ensures a < |cls| + 2 ==>
      OnMessage(b.devices[a - 2], AddrInfo(a)) == (b.devices[a - 2], [DataFrom(a, DIRECTOR, cls[a - 2])])
    ensures GatewayAsDevice(b.gw, AddrInfo(a))
         == (b.gw, if a == |cls| + 2 then [DataFrom(a, DIRECTOR, gwCls)] else [])
  {
    hide DataFrom;
  }

  lemma InfoBroadcast(b: Bus, cls: seq<byte>, gwCls: byte, a: nat)
    requires Named(b, cls, gwCls) && 2 <= a <= |cls| + 2 < DEVICE_HIGH_ADDRESS
    ensures Deliver(b, AddrInfo(a)) == (b, [DataFrom(a, DIRECTOR, ClassAt(cls, gwCls, a))])
  {
    var m := AddrInfo(a);
    InfoOthers(b, cls, gwCls, a);
    hide DataFrom, OnMessage, GatewayAsDevice, Silent, Broadcast;
    if a == |cls| + 2 {
      BroadcastNone(b.devices, m);
      assert [] + [DataFrom(a, DIRECTOR, gwCls)] == [DataFrom(a, DIRECTOR, gwCls)];
    } else {
      BroadcastOne(b.devices, m, a - 2);
      assert b.devices[a - 2 := b.devices[a - 2]] == b.devices;
      assert [DataFrom(a, DIRECTOR, cls[a - 2])] + [] == [DataFrom(a, DIRECTOR, cls[a - 2])];
    }
  }

  lemma InfoReply(e: Enum, cls: seq<byte>, gwCls: byte, a: nat)
    requires 2 <= a <= |cls| + 2 < DEVICE_HIGH_ADDRESS
    requires WellFormed(e) && e.state == FetchingClasses && e.added == map[] && e.next == |cls| + 3 && e.info == a + 1
    requires forall x: nat :: 2 <= x < a ==> e.classes[x] == ClassAt(cls, gwCls, x)
    ensures var r := OnReply(e, DataFrom(a, DIRECTOR, ClassAt(cls, gwCls, a)));
      && WellFormed(r.e) && r.e.next == e.next
      && (forall x: nat :: 2 <= x <= a ==> r.e.classes[x] == ClassAt(cls, gwCls, x))
      && if a == |cls| + 2 then r.e.state == Done && r.sent == [] && r.e.added == AddedUpTo(r.e.classes, e.next)
         else r.e.state == FetchingClasses && r.sent == [AddrInfo(a + 1)] && r.e.info == a + 2 && r.e.added == map[]
  {
    hide AddedUpTo;
    var c := e.classes[a := ClassAt(cls, gwCls, a)];
    assert map[] + AddedUpTo(c, e.next) == AddedUpTo(c, e.next);
  }

  lemma InfoRound(s: System, cls: seq<byte>, gwCls: byte, a: nat, extra: nat)
    requires Fetching(s, cls, gwCls, a)
    ensures Answered(s)
    ensures if a == |cls| + 2 then Complete(Round(s, extra), cls, gwCls)
            else Fetching(Round(s, extra), cls, gwCls, a + 1)
  {
    InfoBroadcast(s.bus, cls, gwCls, a);
    InfoReply(s.e, cls, gwCls, a);
    AdvanceNames(s.bus, 1 + extra, cls, gwCls);
    assert Carriable(AddrInfo(a));
    hide Named, AdvanceTimes, Deliver, OnReply, DataFrom;
    assert s.queue[1..] == [];
  }

  lemma {:induction false} InfoRounds(s: System, cls: seq<byte>, gwCls: byte, a: nat, extras: seq<nat>)
    requires Fetching(s, cls, gwCls, a) && |extras| == |cls| + 3 - a
    ensures Rounds(s, extras).Some? && Complete(Rounds(s, extras).value, cls, gwCls)
    decreases |cls| + 3 - a
  {
    InfoRound(s, cls, gwCls, a, extras[0]);
    assert 2 <= a <= |cls| + 2;
    hide Fetching, Complete, Answered, Round;
    if a < |cls| + 2 {
      InfoRounds(Round(s, extras[0]), cls, gwCls, a + 1, extras[1..]);
    }
  }

  /** The rounds between the gateway getting its address and the first class query. */
  predicate Switching(s: System, cls: seq<byte>, gwCls: byte, queue: seq<Message>) {
    && |cls| + 2 < DEVICE_HIGH_ADDRESS
    && WellFormed(s.e) && s.e.state == FetchingClasses && s.e.added == map[]
    && s.e.next == |cls| + 3 && s.e.info == 3
    && s.queue == queue && Named(s.bus, cls, gwCls)
  }

  lemma GatewayDelivers(cls: seq<byte>, gw: Gateway)
    requires |cls| + 2 < DEVICE_HIGH_ADDRESS && gw.keep && gw.address == -1
    ensures var n := |cls|;
      var (b, out) := Deliver(RingBus(cls, n, n, n, gw), AddrAssign(n + 2));
      Named(b, cls, gw.cls) && out == [AckFrom(n + 2, DIRECTOR)]
  {
    var n := |cls|;
    AssignBroadcast(cls, n);
    hide Broadcast, AckFrom;
    assert [] + [AckFrom(n + 2, DIRECTOR)] == [AckFrom(n + 2, DIRECTOR)];
  }

  lemma GatewayRound(s: System, cls: seq<byte>, gw: Gateway, extra: nat)
    requires Assigning(s, cls, |cls|, gw)
    ensures Answered(s)
    ensures Switching(Round(s, extra), cls, gw.cls, [UseToken(true), GenToken(), AddrInfo(2)])
  {
    var n := |cls|;
    GatewayDelivers(cls, gw);
    hide RingBus, Deliver, AddedUpTo, AdvanceTimes, Named;
    AdvanceNames(Deliver(s.bus, AddrAssign(n + 2)).0, 1 + extra, cls, gw.cls);
    assert [AddrAssign(n + 2)][1..] == [];
  }

  lemma SwitchRound(s: System, cls: seq<byte>, gwCls: byte, m: Message, rest: seq<Message>, extra: nat)
    requires Switching(s, cls, gwCls, [m] + rest) && (m == UseToken(true) || m == GenToken())
    ensures Answered(s) && Switching(Round(s, extra), cls, gwCls, rest)
  {
    hide AddedUpTo, AdvanceTimes;
    AdvanceNames(Deliver(s.bus, m).0, 1 + extra, cls, gwCls);
    assert ([m] + rest)[1..] + [] == rest;
  }

  lemma SwitchRounds(s: System, cls: seq<byte>, gwCls: byte, extras: seq<nat>)
    requires Switching(s, cls, gwCls, [UseToken(true), GenToken(), AddrInfo(2)]) && |extras| == 2
    ensures Rounds(s, extras).Some? && Fetching(Rounds(s, extras).value, cls, gwCls, 2)
  {
    var q1, q2 := [GenToken(), AddrInfo(2)], [AddrInfo(2)];
    assert [UseToken(true)] + q1 == [UseToken(true), GenToken(), AddrInfo(2)] && [GenToken()] + q2 == q1;
    hide Round, Answered, Named;
    SwitchRound(s, cls, gwCls, UseToken(true), q1, extras[0]);
    SwitchRound(Round(s, extras[0]), cls, gwCls, GenToken(), q2, extras[1]);
    TwoRounds(s, extras[0], extras[1]);
    assert extras == [extras[0], extras[1]];
  }

  /** Once the token is back at the gateway: its own address, the mode switch and all the classes. */
  lemma LastRounds(s: System, cls: seq<byte>, gw: Gateway, extras: seq<nat>)
    requires Asking(s, cls, |cls|, gw) && |cls| + 2 < DEVICE_HIGH_ADDRESS && |extras| == |cls| + 5
    ensures Rounds(s, extras).Some? && Complete(Rounds(s, extras).value, cls, gw.cls)
  {
    var head, mid, tail := extras[..2], extras[2..4], extras[4..];
    AskRound(s, cls, |cls|, gw, head[0]);
    hide Asking, Assigning, Switching, Fetching, Complete, Round, Answered;
    var s1 := Round(s, head[0]);
    GatewayRound(s1, cls, gw, head[1]);
    var s2 := Round(s1, head[1]);
    TwoRounds(s, head[0], head[1]);
    assert head == [head[0], head[1]];
    SwitchRounds(s2, cls, gw.cls, mid);
    var s3 := Rounds(s2, mid).value;
    InfoRounds(s3, cls, gw.cls, 2, tail);
    hide Rounds;
    RoundsAppend(s2, mid, tail);
    RoundsAppend(s, head, mid + tail);
    assert extras == head + (mid + tail);
  }

  lemma ThreeParts(s: System, a: seq<nat>, b: seq<nat>, c: seq<nat>)
    requires Rounds(s, a).Some? && Rounds(Rounds(s, a).value, b).Some?
    ensures Rounds(s, a + (b + c)) == Rounds(Rounds(Rounds(s, a).value, b).value, c)
  {
    hide Rounds;
    RoundsAppend(s, a, b + c);
    RoundsAppend(Rounds(s, a).value, b, c);
  }

  /** With at most 125 devices, enumeration is complete after exactly 4n + 7 requests, whatever the
      number of extra times the token advances in between: the devices have addresses 2 to n + 1 in
      ring order, the gateway has n + 2, and each address is registered with the class of its holder. */
  lemma EnumerationCompletes(s: System, cls: seq<byte>, extras: seq<nat>)
    requires JustReset(s, cls) && |cls| <= 125 && |extras| == 4 * |cls| + 7
    ensures Rounds(s, extras).Some? && Complete(Rounds(s, extras).value, cls, s.bus.gw.cls)
  {
    hide JustReset, Asking, Complete, Rounds;
    var n := |cls|;
    var a, rest := extras[..2], extras[2..];
    var b, c := rest[..3 * n], rest[3 * n..];
    assert extras == a + (b + c);
    var gw := FirstRounds(s, cls, a);
    ManyDevices(Rounds(s, a).value, cls, 0, n, gw, b);
    LastRounds(Rounds(Rounds(s, a).value, b).value, cls, gw, c);
    ThreeParts(s, a, b, c);
  }

  /** With more, the daemon gives up: it has no address left for the 127th participant. */
  lemma TooManyDevices(s: System, cls: seq<byte>, extras: seq<nat>)
    requires JustReset(s, cls) && |cls| >= 126 && |extras| == 381
    ensures Rounds(s, extras).Some? && Rounds(s, extras).value.e.state == Exited
  {
    hide JustReset, Asking, Rounds;
    var a, rest := extras[..2], extras[2..];
    var b, c := rest[..378], rest[378..];
    assert extras == a + (b + c);
    var gw := FirstRounds(s, cls, a);
    ManyDevices(Rounds(s, a).value, cls, 0, 126, gw, b);
    var s2 := Rounds(Rounds(s, a).value, b).value;
    AskRound(s2, cls, 126, gw, c[0]);
    OneRound(s2, c[0]);
    assert c == [c[0]];
    ThreeParts(s, a, b, c);
  }

  lemma {:induction false} Final(s: System, extras: seq<nat>)
    requires s.e.state == Done || s.e.state == Exited
    ensures Rounds(s, extras).Some? ==> Rounds(s, extras).value.e.state == s.e.state
    decreases |extras|
  {
    if extras != [] && Answered(s) {
      assert Round(s, extras[0]).e.state == s.e.state;
      hide Round, Answered;
      Final(Round(s, extras[0]), extras[1..]);
    }
  }

  /** Enumeration can complete, after some number of requests, exactly on buses with room for an
      address for every device and the gateway. */
  lemma CompletesIffAddressesSuffice(s: System, cls: seq<byte>)
    requires JustReset(s, cls)
    ensures (exists extras: seq<nat> :: Rounds(s, extras).Some? && Rounds(s, extras).value.e.state == Done)
            <==> |cls| <= 125
  {
    if |cls| <= 125 {
      var extras := seq(4 * |cls| + 7, _ => 0);
      hide Rounds, JustReset;
      EnumerationCompletes(s, cls, extras);
      assert Rounds(s, extras).Some? && Rounds(s, extras).value.e.state == Done;
    } else {
      hide Rounds, JustReset;
      forall extras: seq<nat> | Rounds(s, extras).Some?
        ensures Rounds(s, extras).value.e.state != Done
      {
        NeverDone(s, cls, extras);
      }
    }
  }

  lemma NeverDone(s: System, cls: seq<byte>, extras: seq<nat>)
    requires JustReset(s, cls) && |cls| > 125 && Rounds(s, extras).Some?
    ensures Rounds(s, extras).value.e.state != Done
  {
    hide Rounds, JustReset;
    if |extras| >= 381 {
      var x, y := extras[..381], extras[381..];
      assert extras == x + y;
      TooManyDevices(s, cls, x);
      RoundsAppend(s, x, y);
      Final(Rounds(s, x).value, y);
    } else {
      var y := seq(381 - |extras|, _ => 0);
      TooManyDevices(s, cls, extras + y);
      RoundsAppend(s, extras, y);
      if Rounds(s, extras).value.e.state == Done {
        Final(Rounds(s, extras).value, y);
      }
    }
  }

  // ----- How the bus gets there -----

  function Classes(ds: seq<Device>): (cls: seq<byte>)
    ensures |cls| == |ds| && forall i :: 0 <= i < |ds| ==> cls[i] == ds[i].cls
  {
    seq(|ds|, i requires 0 <= i < |ds| => ds[i].cls)
  }

  lemma {:induction false} ResetBroadcast(ds: seq<Device>)
    ensures Broadcast(ds, Reset()) == (Ring(Classes(ds), 0, 0, |ds|), [])
    decreases |ds|
  {
    var ring := Ring(Classes(ds), 0, 0, |ds|);
    if ds != [] {
      ResetBroadcast(ds[1..]);
      assert ring[1..] == Ring(Classes(ds[1..]), 0, 0, |ds[1..]|);
      HeadTail(ring);
      assert OnMessage(ds[0], Reset()) == (ring[0], []);
      var none: seq<Reply> := [];
      assert none + none == none;
    } else {
      assert ring == [];
    }
  }

  lemma {:induction false} NothingMoves(b: Bus, n: nat)
    requires b.devices == Place(b.devices, |b.devices|) && (b.gw.has ==> b.gw.keep)
    ensures AdvanceTimes(b, n) == b
    decreases n
  {
    if n > 0 {
      RotateEmpty(b.devices, false);
      hide Rotate, Place;
      NothingMoves(b, n - 1);
    }
  }

  /** A reset frame, however the devices were before and however often the token logic then runs, leaves
      the bus as the EV_BUS_RESET transition expects it, unless the gateway holds a token it is not to keep. */
  lemma ResetPrepares(b: Bus, e: Enum, extra: nat)
    requires b.gw.address == -1 && (b.gw.has ==> b.gw.keep)
    requires WellFormed(e) && e.state == Resetting && e.next == 2 && e.added == map[]
    ensures var r := Fsm(e, BusReset);
      JustReset(System(r.e, r.sent, Exchange(b, Reset(), extra).0), Classes(b.devices))
  {
    ResetBroadcast(b.devices);
    var b1 := Deliver(b, Reset()).0;
    assert Place(b1.devices, |b1.devices|) == b1.devices;
    hide Broadcast, Ring, Place;
    NothingMoves(b1, 1 + extra);
  }
}
