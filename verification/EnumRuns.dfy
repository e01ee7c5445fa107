/** The enumeration state machine against anything the bus and the timers can do to it. */
module EnumRuns {
  import opened Bytes
  import opened Encoding
  import opened EnumFsm

  datatype Input = Start | KillTimeout | ResetTimeout | Received(r: Reply)

  predicate Possible(e: Enum, i: Input) {
    match i
    case Start => e.state == Idle
    case KillTimeout => e.killTimer
    case ResetTimeout => e.resetTimer
    case Received(_) => e.state != Exited
  }

  function React(e: Enum, i: Input): Reaction
    requires WellFormed(e)
  {
    match i
    case Start => Fsm(e, StartEnum)
    case KillTimeout => OnKillTimeout(e)
    case ResetTimeout => OnResetTimeout(e)
    case Received(r) => OnReply(e, r)
  }

  lemma ReactWellFormed(e: Enum, i: Input)
    requires WellFormed(e)
    ensures WellFormed(React(e, i).e)
  {
    hide Fsm;
    match i
    case Start => FsmWellFormed(e, StartEnum);
    case KillTimeout => FsmWellFormed(e.(killTimer := false), TokenCatchTimeout);
    case ResetTimeout => FsmWellFormed(e.(resetCount := e.resetCount + 1, resetTimer := false), BusReset);
    case Received(r) => hide OnReply; OnReplyWellFormed(e, r);
  }

  predicate LegalRun(e: Enum, inputs: seq<Input>)
    requires WellFormed(e)
    decreases |inputs|
  {
    inputs == [] || (Possible(e, inputs[0])
      && (ReactWellFormed(e, inputs[0]); LegalRun(React(e, inputs[0]).e, inputs[1..])))
  }

  /** Final state, and every frame queued on the way. */
  function After(e: Enum, inputs: seq<Input>): (r: Reaction)
    requires WellFormed(e) && LegalRun(e, inputs)
    ensures WellFormed(r.e)
    decreases |inputs|
  {
    if inputs == [] then Reaction(e, []) else
      ReactWellFormed(e, inputs[0]);
      var one := React(e, inputs[0]);
      var rest := After(one.e, inputs[1..]);
      Reaction(rest.e, one.sent + rest.sent)
  }

  // ----- Addresses -----

  /** The addresses assigned by a list of frames, in order. */
  function Assigned(ms: seq<Message>): seq<byte> {
    if ms == [] then [] else (if IsAssign(ms[0]) then [ms[0].payload[1]] else []) + Assigned(ms[1..])
  }

  predicate IsReset(m: Message) { m == Reset() }

  function Resets(ms: seq<Message>): nat {
    if ms == [] then 0 else (if IsReset(ms[0]) then 1 else 0) + Resets(ms[1..])
  }

  /** lo, lo + 1, ..., hi - 1 */
  function Range(lo: nat, hi: nat): (r: seq<byte>)
    requires hi <= 256
    ensures |r| == if lo <= hi then hi - lo else 0
    ensures forall i :: 0 <= i < |r| ==> r[i] == lo + i
  {
    if lo >= hi then [] else Range(lo, hi - 1) + [hi - 1]
  }

  lemma {:induction false} AssignedAppend(x: seq<Message>, y: seq<Message>)
    ensures Assigned(x + y) == Assigned(x) + Assigned(y) && Resets(x + y) == Resets(x) + Resets(y)
    decreases |x|
  {
    hide IsReset;
    if x == [] {
      assert x + y == y;
    } else {
      assert (x + y)[1..] == x[1..] + y;
      AssignedAppend(x[1..], y);
      ConcatAssoc(if IsAssign(x[0]) then [x[0].payload[1]] else [], Assigned(x[1..]), Assigned(y));
    }
  }

  /** The first address not yet assigned. */
  function Next(e: Enum): nat {
    if e.state == SettingAddr || e.state == SettingGwAddr || e.state == AdvancingToken then e.next + 1 else e.next
  }

  /** One more than the number of resets that have been sent. */
  predicate ResetPhase(e: Enum, resets: nat) {
    match e.state
    case Idle => resets == 0 && e.resetCount == 0 && !e.killTimer && !e.resetTimer
    case KillingToken => resets == 0 && e.resetCount == 0 && !e.resetTimer
    case Resetting => resets == e.resetCount <= 5 && e.resetTimer && !e.killTimer
    case _ => resets == 5 && !e.resetTimer && !e.killTimer
  }

  /** `sent` is everything queued since power-on. */
  predicate History(e: Enum, sent: seq<Message>)
    requires WellFormed(e)
  {
    && Assigned(sent) == Range(2, Next(e))
    && ResetPhase(e, Resets(sent))
    && (e.state == Idle || e.state == KillingToken || e.state == Resetting ==> e.next == 2)
    && e.added == (if e.state == Done then AddedUpTo(e.classes, e.next) else map[])
  }

  lemma NoneOf(ms: seq<Message>)
    requires forall m :: m in ms ==> !IsAssign(m) && !IsReset(m)
    ensures Assigned(ms) == [] && Resets(ms) == 0
    decreases |ms|
  {
    if ms != [] {
      NoneOf(ms[1..]);
    }
  }

  /** What the frames queued for an event say about addresses and resets. */
  lemma FsmSent(e: Enum, ev: EnumEvent)
    requires WellFormed(e)
    ensures var sent := Fsm(e, ev).sent;
      && Resets(sent) == 0
      && Assigned(sent) == if e.state == Enumerating && (ev == DevPresent || ev == TokAtGw)
        && e.next < DEVICE_HIGH_ADDRESS
                           then [e.next] else []
  {
    hide AddedUpTo;
    var sent := Fsm(e, ev).sent;
    if e.state == Enumerating && (ev == DevPresent || ev == TokAtGw) && e.next < DEVICE_HIGH_ADDRESS {
      assert sent == [AddrAssign(e.next)] && sent[1..] == [];
      NoneOf([]);
    } else {
      NoneOf(sent);
    }
  }

  lemma FsmPhase(e: Enum, ev: EnumEvent, resets: nat)
    requires WellFormed(e) && ev != StartEnum && ev != TokenCatchTimeout && ev != BusReset
    requires ResetPhase(e, resets)
    ensures var e' := Fsm(e, ev).e;
      && ResetPhase(e', resets)
      && ((e'.state == Idle || e'.state == KillingToken || e'.state == Resetting) ==>
            e'.next == e.next && e'.state == e.state)
  {
    hide AddedUpTo, Assigned, Resets;
  }

  lemma FsmAssigns(e: Enum, ev: EnumEvent)
    requires WellFormed(e) && ev != StartEnum && ev != TokenCatchTimeout && ev != BusReset
    ensures var e' := Fsm(e, ev).e;
      && Next(e') == Next(e) + |Assigned(Fsm(e, ev).sent)|
      && (Assigned(Fsm(e, ev).sent) != [] ==> Assigned(Fsm(e, ev).sent) == [Next(e)])
  {
    FsmSent(e, ev);
    hide AddedUpTo, Assigned, Resets;
  }

  lemma FsmAdded(e: Enum, ev: EnumEvent)
    requires WellFormed(e)
    requires e.added == (if e.state == Done then AddedUpTo(e.classes, e.next) else map[])
    ensures var e' := Fsm(e, ev).e;
      && WellFormed(e')
      && e'.added == (if e'.state == Done then AddedUpTo(e'.classes, e'.next) else map[])
  {
    FsmWellFormed(e, ev);
    assert map[] + AddedUpTo(e.classes, e.next) == AddedUpTo(e.classes, e.next);
    hide AddedUpTo;
  }

  lemma RangeSnoc(lo: nat, hi: nat, more: seq<byte>)
    requires lo <= hi < 256 && (more == [] || more == [hi])
    ensures Range(lo, hi + |more|) == Range(lo, hi) + more
  {}

  lemma FsmStep(e: Enum, ev: EnumEvent, sent: seq<Message>)
    requires WellFormed(e) && History(e, sent) && ev != StartEnum && ev != TokenCatchTimeout && ev != BusReset
    ensures WellFormed(Fsm(e, ev).e) && History(Fsm(e, ev).e, sent + Fsm(e, ev).sent)
  {
    hide Fsm, Assigned, Resets, Range, AddedUpTo, ResetPhase, WellFormed, Next;
    var more := Fsm(e, ev).sent;
    FsmWellFormed(e, ev);
    FsmPhase(e, ev, Resets(sent));
    FsmAssigns(e, ev);
    FsmAdded(e, ev);
    FsmSent(e, ev);
    AssignedAppend(sent, more);
    NextBound(e);
    RangeSnoc(2, Next(e), Assigned(more));
  }

  lemma NextBound(e: Enum)
    requires WellFormed(e)
    ensures 2 <= Next(e) <= 128
  {}

  lemma RecordedClass(e: Enum, r: Reply, sent: seq<Message>)
    requires WellFormed(e) && History(e, sent) && e.state == FetchingClasses && |r.payload| == 1
    ensures var e1 := e.(classes := e.classes[r.From() as int := r.payload[0]]);
      WellFormed(e1) && History(e1, sent)
  {
    hide Assigned, Resets, AddedUpTo, Range;
  }

  lemma ReplyStep(e: Enum, r: Reply, sent: seq<Message>)
    requires WellFormed(e) && History(e, sent)
    ensures WellFormed(OnReply(e, r).e) && History(OnReply(e, r).e, sent + OnReply(e, r).sent)
  {
    assert sent + [] == sent;
    if e.state == Enumerating && |r.payload| == 1 && r.IsAck() {
      hide Fsm, History;
      FsmStep(e, if r.payload[0] == 0 then DevPresent else TokAtGw, sent);
    } else if e.state == Idle {
    } else if r.From() == e.next && r.IsAck() {
      hide Fsm, History;
      FsmStep(e, NewDevAck, sent);
    } else if r.IsAck() && e.state == FetchingClasses && |r.payload| == 1 {
      hide Fsm, History;
      RecordedClass(e, r, sent);
      FsmStep(e.(classes := e.classes[r.From() as int := r.payload[0]]), AddrInfoAck, sent);
    }
  }

  /** The timers only act before enumeration starts, and then queue no address. */
  lemma TimerReact(e: Enum, i: Input, resets: nat)
    requires WellFormed(e) && Possible(e, i) && ResetPhase(e, resets) && e.next == 2 && !i.Received?
    ensures var r := React(e, i);
      && r.e.next == 2 && r.e.added == e.added && r.e.state != Done && Next(e) == 2 && Next(r.e) == 2
      && ResetPhase(r.e, resets + (if r.sent == [Reset()] then 1 else 0))
      && (r.sent != [Reset()] ==> forall m :: m in r.sent ==> !IsAssign(m) && !IsReset(m))
  {
    hide AddedUpTo;
  }

  lemma OneReset()
    ensures Assigned([Reset()]) == [] && Resets([Reset()]) == 1
  {
    assert [Reset()][1..] == [];
  }

  lemma TimersEarly(e: Enum, i: Input, sent: seq<Message>)
    requires WellFormed(e) && Possible(e, i) && History(e, sent) && !i.Received?
    ensures e.next == 2 && e.state != Done
  {
    hide Assigned, Resets, AddedUpTo, Range;
  }

  lemma TimerStep(e: Enum, i: Input, sent: seq<Message>)
    requires WellFormed(e) && Possible(e, i) && History(e, sent) && !i.Received?
    ensures WellFormed(React(e, i).e) && History(React(e, i).e, sent + React(e, i).sent)
  {
    var more := React(e, i).sent;
    ReactWellFormed(e, i);
    TimersEarly(e, i, sent);
    TimerReact(e, i, Resets(sent));
    AssignedAppend(sent, more);
    if more == [Reset()] {
      OneReset();
    } else {
      NoneOf(more);
    }
    assert Assigned(sent) + [] == Assigned(sent);
    hide Assigned, Resets, AddedUpTo, Range, React, ResetPhase, Possible;
  }

  lemma {:induction false} RunHistory(e: Enum, inputs: seq<Input>, sent: seq<Message>)
    requires WellFormed(e) && LegalRun(e, inputs) && History(e, sent)
    ensures History(After(e, inputs).e, sent + After(e, inputs).sent)
    decreases |inputs|
  {
    if inputs == [] {
      assert sent + [] == sent;
    } else {
      var one := React(e, inputs[0]);
      ReactWellFormed(e, inputs[0]);
      if inputs[0].Received? {
        ReplyStep(e, inputs[0].r, sent);
      } else {
        TimerStep(e, inputs[0], sent);
      }
      hide History, React, OnReply, Fsm, Possible;
      RunHistory(one.e, inputs[1..], sent + one.sent);
      ConcatAssoc(sent, one.sent, After(one.e, inputs[1..]).sent);
    }
  }

  /** Over any sequence of timer expiries and received acks: addresses are handed out as 2, 3, 4, ...
      with none skipped, repeated or above 127; the class queries never run ahead of them; a finished
      enumeration has registered exactly the addresses handed out; and five resets precede it all. */
  lemma AnyRun(inputs: seq<Input>)
    requires LegalRun(POWER_ON, inputs)
    ensures var r := After(POWER_ON, inputs);
      var e := r.e;
      && (forall i :: 0 <= i < |Assigned(r.sent)| ==> Assigned(r.sent)[i] == 2 + i && Assigned(r.sent)[i] <= 127)
      && 2 <= e.info <= e.next <= 128
      && (e.state == Done ==> forall a: nat :: a in e.added <==> 2 <= a < e.next)
      && (e.state == Done ==> forall a: nat :: a in e.added ==> e.added[a] == e.classes[a])
      && (e.state == Done ==> Assigned(r.sent) == Range(2, e.next))
      && Resets(r.sent) <= 5
      && (Assigned(r.sent) != [] ==> Resets(r.sent) == 5)
  {
    assert Assigned([]) == Range(2, 2) && Resets([]) == 0;
    RunHistory(POWER_ON, inputs, []);
    var r := After(POWER_ON, inputs);
    assert [] + r.sent == r.sent;
    hide After, LegalRun, Assigned, Resets;
    assert Next(r.e) <= 128;
  }
}
