/** The emulated bus, its clients being objects that messages and the token change in place. */
module BusEmulator {
  import opened Bytes
  import opened Encoding
  import opened EnumFsm
  import opened BusModel

  class OstricClient {
    var address: int
    var hasToken: bool
    var keepToken: bool
    const cls: byte

    constructor (cls: byte)
      ensures Abs() == Device(-1, false, false, cls)
    {
      address, hasToken, keepToken, this.cls := -1, false, false, cls;
    }

    function Abs(): Device
      reads this
    {
      Device(address, hasToken, keepToken, cls)
    }

    /** generic_msg. */
    method GenericMsg(m: Message) returns (out: seq<Reply>)
      requires Carriable(m)
      modifies this
      ensures (Abs(), out) == OnMessage(old(Abs()), m)
    {
      out := [];
      if m.dest % 0x80 != address && m.dest % 0x80 != 0 {
        return;
      }
      if CommandOf(m) == SYSCMD_RESET {
        address := -1;
        hasToken := false;
        keepToken := true;
      } else if CommandOf(m) == SYSCMD_TOK_ADVANCE {
        keepToken := false;
        out := [AckFrom(address, DIRECTOR)];
      } else if CommandOf(m) == SYSCMD_ADDR_ASSIGN {
        if address != -1 || !hasToken {
          return;
        }
        address := ArgumentOf(m) % 0x80;
        out := [AckFrom(address, DIRECTOR)];
      } else if CommandOf(m) == SYSCMD_ADDR_INFO {
        out := [DataFrom(address, DIRECTOR, cls)];
      }
    }
  }

  class Emulator {
    const clients: seq<OstricClient>
    var gw: Gateway
    var tokenOnWire: bool

    ghost predicate Distinct() {
      forall i, j :: 0 <= i < j < |clients| ==> clients[i] != clients[j]
    }

    ghost function Repr(): set<object> {
      set i | 0 <= i < |clients| :: clients[i]
    }

    ghost predicate Valid() {
      Distinct() && this !in Repr()
    }

    /** The clients are in the states ds. */
    ghost predicate Shows(ds: seq<Device>)
      reads clients
    {
      |ds| == |clients| && forall i :: 0 <= i < |clients| ==> clients[i].Abs() == ds[i]
    }

    ghost function Devices(): (ds: seq<Device>)
      reads clients
      ensures Shows(ds)
    {
      seq(|clients|, i requires 0 <= i < |clients| reads clients => clients[i].Abs())
    }

    lemma ShowsOnly(ds: seq<Device>)
      requires Shows(ds)
      ensures Devices() == ds
    {}

    ghost function Abs(): Bus
      reads this, clients
    {
      Bus(gw, Devices())
    }

    /** juggle_token. */
    method JuggleToken(c: OstricClient)
      modifies c, this`tokenOnWire
      ensures (c.Abs(), tokenOnWire) == Juggle(old(c.Abs()), old(tokenOnWire))
    {
      if c.hasToken && c.keepToken {
        tokenOnWire := false;
        return;
      }
      var tmp := c.hasToken;
      c.hasToken := tokenOnWire;
      tokenOnWire := tmp;
    }

    /** advance_token. */
    method AdvanceToken()
      requires Valid()
      modifies this, clients
      ensures Valid() && Abs() == Advance(old(Abs()))
    {
      if gw.keep && gw.has {
        return;
      }
      tokenOnWire := gw.has;
      gw := gw.(has := false);
      hide Shows, Rotate;
      JuggleAll();
      gw := gw.(has := tokenOnWire);
    }

    /** The traversal of the client list. */
    method JuggleAll()
      requires Valid()
      modifies this`tokenOnWire, clients
      ensures (Devices(), tokenOnWire) == Rotate(old(Devices()), old(tokenOnWire))
    {
      ghost var ds, w := Devices(), tokenOnWire;
      ghost var now := ds;
      var i := 0;
      hide Shows, Turning, Rotate;
      TurningStart(ds, w);
      while i < |clients|
        invariant 0 <= i <= |clients| == |now|
        invariant Shows(now) && Turning(ds, w, now, i, tokenOnWire)
      {
        TurningStep(ds, w, now, i, tokenOnWire);
        now := JuggleAt(i, now);
        i := i + 1;
      }
      TurningEnd(ds, w, now, tokenOnWire);
      ShowsOnly(now);
    }

    /** The i-th client's turn. */
    method JuggleAt(i: nat, ghost now: seq<Device>) returns (ghost next: seq<Device>)
      requires Valid() && i < |clients| && Shows(now)
      modifies clients[i], this`tokenOnWire
      ensures next == now[i := Juggle(now[i], old(tokenOnWire)).0] && Shows(next)
      ensures tokenOnWire == Juggle(now[i], old(tokenOnWire)).1
    {
      JuggleToken(clients[i]);
      next := now[i := clients[i].Abs()];
    }

    /** bus_cmd_despatch for the i-th client. */
    method DespatchAt(i: nat, m: Message, ghost now: seq<Device>) returns (out: seq<Reply>, ghost next: seq<Device>)
      requires Valid() && i < |clients| && Shows(now) && Carriable(m)
      modifies clients[i]
      ensures next == now[i := OnMessage(now[i], m).0] && Shows(next)
      ensures out == OnMessage(now[i], m).1
    {
      hide OnMessage;
      out := clients[i].GenericMsg(m);
      next := now[i := clients[i].Abs()];
    }

    /** bus_command. */
    method BusCommand(m: Message) returns (out: seq<Reply>)
      requires Valid() && Carriable(m)
      modifies clients
      ensures Valid()
      ensures (Devices(), out) == Broadcast(old(Devices()), m)
    {
      ghost var ds := Devices();
      ghost var now := ds;
      var i := 0;
      out := [];
      hide Broadcast, Shows, Gather;
      GatherNothing(Broadcast(ds, m));
      assert now[0..] == ds && now[..0] == [];
      while i < |clients|
        invariant 0 <= i <= |clients| == |now|
        invariant Shows(now)
        invariant Broadcast(ds, m) == Gather(now[..i], out, Broadcast(now[i..], m))
      {
        BroadcastStep(now, i, m, out);
        var more;
        more, now := DespatchAt(i, m, now);
        out := out + more;
        i := i + 1;
      }
      GatherEnd(now, out, m);
      assert now[i..] == [] && now[..i] == now;
      ShowsOnly(now);
    }

    /** gateway_command. */
    method GatewayCommand(m: Message) returns (out: seq<Reply>)
      requires Carriable(m)
      modifies this`gw
      ensures (gw, out) == BusModel.GatewayCommand(old(gw), m)
    {
      out := [];
      if CommandOf(m) == GW_CMD_USE_TOKEN {
        if |m.payload| != 2 {
          return;
        }
        gw := gw.(tokenMode := ArgumentOf(m) != 0);
        out := [AckFrom(m.dest, DIRECTOR)];
      } else if CommandOf(m) == GW_CMD_GEN_TOKEN {
        gw := gw.(has := true, keep := false);
        out := [AckFrom(m.dest, DIRECTOR)];
      } else if CommandOf(m) == GW_CMD_REQ_TOKEN {
        gw := gw.(keep := true);
        out := [AckFrom(m.dest, DIRECTOR)];
      } else if CommandOf(m) == GW_CMD_HAVE_TOKEN {
        out := [DataFrom(m.dest, DIRECTOR, if gw.has then 1 else 0)];
      }
    }

    /** process_command, with the assumed gateway's answers to bus frames. */
    method ProcessCommand(m: Message) returns (out: seq<Reply>)
      requires Valid() && Carriable(m)
      modifies this`gw, clients
      ensures Valid() && (Abs(), out) == Deliver(old(Abs()), m)
    {
      hide Broadcast, BusModel.GatewayCommand, GatewayAsDevice;
      if m.kind == FRAME_GW_CONF {
        out := GatewayCommand(m);
      } else {
        out := BusCommand(m);
        var (g, more) := GatewayAsDevice(gw, m);
        gw := g;
        out := out + more;
      }
    }
  }

  function Gather(front: seq<Device>, out: seq<Reply>, r: (seq<Device>, seq<Reply>)): (seq<Device>, seq<Reply>) {
    (front + r.0, out + r.1)
  }

  lemma ContinueNothing<T>(r: (seq<Device>, T))
    ensures Continue([], r) == r
  {
    assert [] + r.0 == r.0;
  }

  lemma ContinueEnd(ds: seq<Device>, w: bool)
    ensures Continue(ds, Rotate([], w)) == (ds, w)
  {
    assert ds + [] == ds;
  }

  lemma GatherNothing(r: (seq<Device>, seq<Reply>))
    ensures Gather([], [], r) == r
  {
    assert [] + r.0 == r.0 && [] + r.1 == r.1;
  }

  lemma GatherEnd(ds: seq<Device>, out: seq<Reply>, m: Message)
    requires Carriable(m)
    ensures Gather(ds, out, Broadcast([], m)) == (ds, out)
  {
    assert ds + [] == ds && out + [] == out;
  }

  /** Replacing the i-th entry of a list moves it from the part to come to the part done. */
  lemma Replaced(ds: seq<Device>, i: nat, d: Device)
    requires i < |ds|
    ensures ds[i := d][..i + 1] == ds[..i] + [d] && ds[i := d][i + 1..] == ds[i + 1..] == ds[i..][1..]
  {}

  lemma RotateStep(ds: seq<Device>, i: nat, w: bool)
    requires i < |ds|
    ensures var (d, w') := Juggle(ds[i], w);
      Continue(ds[..i], Rotate(ds[i..], w)) == Continue(ds[i := d][..i + 1], Rotate(ds[i := d][i + 1..], w'))
  {
    var (d, w') := Juggle(ds[i], w);
    Replaced(ds, i, d);
    ConcatAssoc(ds[..i], [d], Rotate(ds[i + 1..], w').0);
  }

  /** The round that started with ds and w has reached client i. */
  predicate Turning(ds: seq<Device>, w: bool, now: seq<Device>, i: nat, onWire: bool) {
    i <= |now| && Rotate(ds, w) == Continue(now[..i], Rotate(now[i..], onWire))
  }

  lemma TurningStart(ds: seq<Device>, w: bool)
    ensures Turning(ds, w, ds, 0, w)
  {
    hide Rotate;
    assert ds[0..] == ds && ds[..0] == [];
    ContinueNothing(Rotate(ds, w));
  }

  lemma TurningStep(ds: seq<Device>, w: bool, now: seq<Device>, i: nat, onWire: bool)
    requires i < |now| && Turning(ds, w, now, i, onWire)
    ensures var (d, onWire') := Juggle(now[i], onWire);
      Turning(ds, w, now[i := d], i + 1, onWire')
  {
    hide Rotate, Continue, Juggle;
    RotateStep(now, i, onWire);
  }

  lemma TurningEnd(ds: seq<Device>, w: bool, now: seq<Device>, onWire: bool)
    requires Turning(ds, w, now, |now|, onWire)
    ensures Rotate(ds, w) == (now, onWire)
  {
    hide Rotate, Continue;
    assert now[|now|..] == [] && now[..|now|] == now;
    ContinueEnd(now, onWire);
  }

  lemma BroadcastStep(ds: seq<Device>, i: nat, m: Message, out: seq<Reply>)
    requires i < |ds| && Carriable(m)
    ensures var (d, more) := OnMessage(ds[i], m);
      Gather(ds[..i], out, Broadcast(ds[i..], m)) ==
      Gather(ds[i := d][..i + 1], out + more, Broadcast(ds[i := d][i + 1..], m))
  {
    var (d, more) := OnMessage(ds[i], m);
    hide OnMessage;
    Replaced(ds, i, d);
    ConcatAssoc(ds[..i], [d], Broadcast(ds[i + 1..], m).0);
    ConcatAssoc(out, more, Broadcast(ds[i + 1..], m).1);
  }

  function Continue<T>(front: seq<Device>, r: (seq<Device>, T)): (seq<Device>, T) {
    (front + r.0, r.1)
  }
}
