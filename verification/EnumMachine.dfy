/** The enumeration state machine as the daemon runs it: static variables changed by a switch. */
module EnumMachine {
  import opened Bytes
  import opened Encoding
  import opened EnumFsm

  class Enumerator {
    var state: State
    var nextAddress: byte
    var addrInfoAddr: byte
    const classes: array<byte>
    var added: map<nat, byte>
    var killTimer: bool
    var resetTimer: bool
    var resetCount: nat
    /** Every frame queued so far, in order. */
    var sent: seq<Message>

    ghost function Abs(): Enum
      reads this, classes
    {
      Enum(state, nextAddress, addrInfoAddr, classes[..], added, killTimer, resetTimer, resetCount)
    }

    ghost predicate Valid()
      reads this, classes
    {
      WellFormed(Abs())
    }

    ghost predicate Did(r: Reaction, before: seq<Message>)
      reads this, classes
    {
      Abs() == r.e && sent == before + r.sent
    }

    constructor ()
      ensures Valid() && Abs() == POWER_ON && sent == [] && fresh(classes)
    {
      state, nextAddress, addrInfoAddr := Idle, 2, 2;
      classes := new byte[DEVICE_HIGH_ADDRESS](_ => 0);
      added, killTimer, resetTimer, resetCount, sent := map[], false, false, 0, [];
      new;
      assert classes[..] == POWER_ON.classes;
    }

    method Send(m: Message)
      modifies this`sent
      ensures sent == old(sent) + [m]
    {
      sent := sent + [m];
    }

    /** Records every address handed out, the gateway's included, with its class. */
    method AddDevices()
      requires Valid()
      modifies this`added
      ensures added == old(added) + AddedUpTo(classes[..], nextAddress)
    {
      var i := 2;
      ghost var before, cs := added, classes[..];
      assert before + AddedUpTo(cs, 2) == before;
      while i < nextAddress
        invariant 2 <= i <= nextAddress
        invariant classes[..] == cs && nextAddress <= classes.Length
        invariant added == before + AddedUpTo(cs, i)
      {
        added := added[i := classes[i]];
        assert AddedUpTo(cs, i + 1) == AddedUpTo(cs, i)[i := cs[i]];
        i := i + 1;
      }
    }

    method StartAssignment(devicePresent: bool)
      requires Valid() && state == Enumerating
      modifies this
      ensures Valid() && Did(EnumFsm.Fsm(old(Abs()), if devicePresent then DevPresent else TokAtGw), old(sent))
    {
      if nextAddress >= DEVICE_HIGH_ADDRESS {
        state := Exited;
        assert sent + [] == sent;
        return;
      }
      Send(AddrAssign(nextAddress));
      state := if devicePresent then SettingAddr else SettingGwAddr;
    }

    method StartFetching()
      requires Valid() && state == SettingGwAddr
      modifies this
      ensures Valid() && Did(EnumFsm.Fsm(old(Abs()), NewDevAck), old(sent))
    {
      ghost var before := sent;
      nextAddress := nextAddress + 1;
      state := FetchingClasses;
      addrInfoAddr := 2;
      Send(UseToken(true));
      Send(GenToken());
      Send(AddrInfo(addrInfoAddr));
      addrInfoAddr := addrInfoAddr + 1;
      assert sent == before + [UseToken(true), GenToken(), AddrInfo(2)];
    }

    method NextClass()
      requires Valid() && state == FetchingClasses
      modifies this
      ensures Valid() && Did(EnumFsm.Fsm(old(Abs()), AddrInfoAck), old(sent))
    {
      if addrInfoAddr == nextAddress {
        AddDevices();
        state := Done;
        assert sent + [] == sent;
      } else {
        Send(AddrInfo(addrInfoAddr));
        addrInfoAddr := addrInfoAddr + 1;
      }
    }

    method KillToken()
      requires Valid() && state == Idle
      modifies this
      ensures Valid() && Did(EnumFsm.Fsm(old(Abs()), StartEnum), old(sent))
    {
      ghost var before := sent;
      Send(TokAdvance(0));
      Send(TokAdvance(0));
      Send(ReqToken());
      assert sent == before + [TokAdvance(0), TokAdvance(0), ReqToken()];
      killTimer := true;
      state := KillingToken;
    }

    method MakeToken()
      requires Valid() && state == Resetting
      modifies this
      ensures Valid() && Did(EnumFsm.Fsm(old(Abs()), BusReset), old(sent))
    {
      ghost var before := sent;
      Send(GenToken());
      Send(ReqToken());
      Send(HaveToken());
      assert sent == before + [GenToken(), ReqToken(), HaveToken()];
      state := Enumerating;
    }

    method Fsm(ev: EnumEvent)
      requires Valid()
      modifies this
      ensures Valid() && Did(EnumFsm.Fsm(old(Abs()), ev), old(sent))
    {
      ghost var before := sent;
      hide AddedUpTo;
      assert before + [] == before;
      match state
      case Idle =>
        if ev == StartEnum {
          KillToken();
        }
      case KillingToken =>
        if ev == TokenCatchTimeout {
          Send(UseToken(false));
          resetTimer := true;
          state := Resetting;
        }
      case Resetting =>
        if ev == BusReset {
          MakeToken();
        }
      case Enumerating =>
        if ev == TokAtGw || ev == DevPresent {
          StartAssignment(ev == DevPresent);
        }
      case SettingGwAddr =>
        if ev == NewDevAck {
          StartFetching();
        }
      case SettingAddr =>
        if ev == NewDevAck {
          Send(TokAdvance(nextAddress));
          state := AdvancingToken;
        }
      case AdvancingToken =>
        if ev == NewDevAck {
          nextAddress := nextAddress + 1;
          Send(HaveToken());
          state := Enumerating;
        }
      case FetchingClasses =>
        if ev == AddrInfoAck {
          NextClass();
        }
      case Done =>
      case Exited =>
    }

    /** An ack arrived; says whether enumeration goes on. */
    method Rx(r: Reply) returns (more: bool)
      requires Valid()
      modifies this, classes
      ensures Valid() && Did(OnReply(old(Abs()), r), old(sent))
      ensures more <==> state != Done
    {
      hide EnumFsm.Fsm;
      assert sent + [] == sent;
      if state == Enumerating && |r.payload| == 1 && r.IsAck() {
        if r.payload[0] == 0 {
          Fsm(DevPresent);
        } else {
          Fsm(TokAtGw);
        }
      } else if state != Idle {
        if r.From() == nextAddress && r.IsAck() {
          Fsm(NewDevAck);
        } else if r.IsAck() && state == FetchingClasses && |r.payload| == 1 {
          ghost var e := Abs();
          classes[r.From()] := r.payload[0];
          assert Abs() == e.(classes := e.classes[r.From() as int := r.payload[0]]);
          Fsm(AddrInfoAck);
        }
      }
      more := state != Done;
    }

    method SendResetTimeout() returns (again: bool)
      requires Valid() && resetTimer
      modifies this
      ensures Valid() && Did(OnResetTimeout(old(Abs())), old(sent)) && again == resetTimer
    {
      hide EnumFsm.Fsm;
      resetCount := resetCount + 1;
      if resetCount > 5 {
        resetTimer := false;
        BusResetKeepsTimer(Abs());
        Fsm(BusReset);
        again := false;
      } else {
        Send(Reset());
        again := true;
      }
    }

    method KillTokenTimeout()
      requires Valid() && killTimer
      modifies this
      ensures Valid() && Did(OnKillTimeout(old(Abs())), old(sent))
    {
      hide EnumFsm.Fsm;
      killTimer := false;
      Fsm(TokenCatchTimeout);
    }
  }

  lemma BusResetKeepsTimer(e: Enum)
    requires WellFormed(e)
    ensures EnumFsm.Fsm(e, BusReset).e.resetTimer == e.resetTimer
  {}
}
