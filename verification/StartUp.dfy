/** The daemon from power-on: transmitter and enumeration code together, cue by cue (sricd/sric-enum.c,
    sricd/sric-if.c). */
module StartUp {
  import opened Bytes
  import opened Encoding
  import opened Frame
  import opened EnumFsm
  import R = EnumRuns
  import opened EnumLink
  import opened OutputQueue
  import opened TxModel
  import opened TxRuns
  import TxTheorems
  import opened LateResponses
  import opened FrameHandler

  datatype Boot = Boot(w: World, e: Enum)

  const POWERED := Boot(GENESIS, POWER_ON)

  /** Enumeration starts or one of its timers fires, the port takes bytes, an ack comes in, the retransmission timer
      fires, or a frame that is no ack comes in and is answered. */
  datatype Cue = Timed(i: R.Input) | Write(count: nat) | AckIn(r: Reply) | Expires(id: nat) | Hears(f: seq<byte>)

  predicate Sane(b: Boot) { Sound(b.w.tx) && EnumFsm.WellFormed(b.e) }

  function Queueing(fs: seq<TxFrame>): seq<Happening> {
    if fs == [] then [] else [Enumerated(fs[0])] + Queueing(fs[1..])
  }

  /** What the transmitter gets to do. */
  function Makes(b: Boot, cue: Cue): seq<Happening>
    requires Sane(b)
  {
    match cue
    case Timed(i) => Queueing(FramesFor(R.React(b.e, i).sent, b.w.nextId))
    case Write(count) => [Wrote(count)]
    case AckIn(r) => [AckOf(b.w.tx, b.e, r, b.w.nextId)]
    case Expires(id) => [TimedOut(id)]
    case Hears(f) => if |f| >= OVERHEAD then [Responded(Response(f, b.w.nextId))] else []
  }

  predicate CuePossible(b: Boot, cue: Cue)
    requires Sane(b)
  {
    && (cue.Timed? ==> !b.w.tx.enumerated && !cue.i.Received? && R.Possible(b.e, cue.i))
    && (cue.Hears? ==> WholeFrame(cue.f) && ForDaemon(cue.f) && !IsAck(cue.f))
    && TxTheorems.LegalRun(b.w, Makes(b, cue))
  }

  function OnCue(b: Boot, cue: Cue): (r: Boot)
    requires Sane(b) && CuePossible(b, cue)
    ensures Sane(r)
  {
    var w := TxTheorems.After(b.w, Makes(b, cue));
    match cue
    case Timed(i) => R.ReactWellFormed(b.e, i); Boot(w, R.React(b.e, i).e)
    case Write(_) => Boot(w, b.e)
    case Expires(_) => Boot(w, b.e)
    case Hears(_) => Boot(w, b.e)
    case AckIn(r) => OnReplyWellFormed(b.e, r); Boot(w, EnumAfter(b.w.tx, b.e, r))
  }

  predicate LegalCues(b: Boot, cues: seq<Cue>)
    requires Sane(b)
    decreases |cues|
  {
    cues == [] || (CuePossible(b, cues[0]) && LegalCues(OnCue(b, cues[0]), cues[1..]))
  }

  function AfterCues(b: Boot, cues: seq<Cue>): (r: Boot)
    requires Sane(b) && LegalCues(b, cues)
    ensures Sane(r)
    decreases |cues|
  {
    if cues == [] then b else AfterCues(OnCue(b, cues[0]), cues[1..])
  }

  lemma {:induction false} CueSnoc(b: Boot, cues: seq<Cue>, cue: Cue)
    requires Sane(b) && LegalCues(b, cues) && CuePossible(AfterCues(b, cues), cue)
    ensures LegalCues(b, cues + [cue]) && AfterCues(b, cues + [cue]) == OnCue(AfterCues(b, cues), cue)
    decreases |cues|
  {
    hide CuePossible, OnCue, Sane;
    if cues == [] {
      assert [] + [cue] == [cue] && [cue][1..] == [];
    } else {
      assert (cues + [cue])[1..] == cues[1..] + [cue];
      CueSnoc(OnCue(b, cues[0]), cues[1..], cue);
    }
  }

  lemma PoweredSane()
    ensures Sane(POWERED)
  {
    TxTheorems.GenesisInv();
    hide Conserved, Distinct, FirstComeFirstSent;
  }

  /** Some cues lead from power-on to b. */
  ghost predicate Reached(b: Boot) {
    PoweredSane();
    exists cues :: LegalCues(POWERED, cues) && AfterCues(POWERED, cues) == b
  }

  lemma PoweredReached()
    ensures Sane(POWERED) && Reached(POWERED)
  {
    PoweredSane();
    assert LegalCues(POWERED, []) && AfterCues(POWERED, []) == POWERED;
  }

  lemma ReachesOn(b: Boot, cue: Cue)
    requires Reached(b) && Sane(b) && CuePossible(b, cue)
    ensures Reached(OnCue(b, cue))
  {
    hide Sane, LegalCues, CuePossible, OnCue, AfterCues;
    PoweredSane();
    var cues :| LegalCues(POWERED, cues) && AfterCues(POWERED, cues) == b;
    CueSnoc(POWERED, cues, cue);
  }

  // ----- One cue -----

  /** No client yet, and nothing in flight. */
  predicate Between(b: Boot) {
    && Sane(b) && b.w.tx.frame == None && !b.w.tx.enumerated && b.w.tx.low == [] && b.w.live == {} && b.w.known == {}
  }

  lemma OneHappening(w: World, h: Happening)
    requires Sound(w.tx) && Possible(w, h)
    ensures TxTheorems.LegalRun(w, [h]) && TxTheorems.After(w, [h]) == NextWorld(w, h)
  {
    NextSound(w, h);
    hide Sound, Possible, NextWorld;
    assert [h][1..] == [];
  }

  lemma EnumeratedIs(w: World, f: TxFrame)
    requires Sound(w.tx) && !w.tx.enumerated && f.id == w.nextId && FromEnumeration(f) && f.Valid()
    ensures Possible(w, Enumerated(f))
    ensures var w' := NextWorld(w, Enumerated(f));
      Sound(w'.tx) && w'.tx == OnPush(w.tx, f, 0) && w'.live == w.live && w'.known == w.known
      && w'.nextId == w.nextId + 1
  {
    PushSound(w.tx, f, 0);
    hide Sound, NextLog;
  }

  lemma {:induction false} QueueingRuns(w: World, fs: seq<TxFrame>)
    requires Sound(w.tx) && !w.tx.enumerated && FreshIds(fs, w.nextId) && AllFramesValid(fs)
    requires forall f :: f in fs ==> FromEnumeration(f)
    ensures TxTheorems.LegalRun(w, Queueing(fs))
    ensures var w' := TxTheorems.After(w, Queueing(fs));
      && w'.tx.high == w.tx.high + fs && w'.tx.low == w.tx.low && w'.tx.frame == w.tx.frame && !w'.tx.enumerated
      && w'.live == w.live && w'.known == w.known
    decreases |fs|
  {
    if fs == [] {
      assert w.tx.high + fs == w.tx.high;
    } else {
      var f := fs[0];
      assert f in fs && f.id == w.nextId;
      EnumeratedIs(w, f);
      var w' := NextWorld(w, Enumerated(f));
      hide Sound, NextWorld, Possible, FromEnumeration, TxFrame.Valid;
      assert ([Enumerated(f)] + Queueing(fs[1..]))[1..] == Queueing(fs[1..]);
      assert w.tx.high + [f] + fs[1..] == w.tx.high + fs;
      QueueingRuns(w', fs[1..]);
    }
  }

  lemma TimersSend(e: Enum, i: R.Input)
    requires EnumFsm.WellFormed(e) && !i.Received?
    ensures forall m :: m in R.React(e, i).sent ==> m.Valid()
  {
    hide AddedUpTo;
  }

  lemma OnTimer(b: Boot, i: R.Input)
    requires Between(b) && !i.Received? && R.Possible(b.e, i)
    ensures CuePossible(b, Timed(i))
    ensures var b' := OnCue(b, Timed(i));
      && Between(b') && b'.e == R.React(b.e, i).e
      && b'.w.tx.high == b.w.tx.high + FramesFor(R.React(b.e, i).sent, b.w.nextId)
  {
    var ms := R.React(b.e, i).sent;
    TimersSend(b.e, i);
    FramesPossible(ms, b.w.nextId);
    hide Sound, R.React, R.Possible, FramesFor, Queueing, AllFramesValid, FreshIds, TxTheorems.LegalRun,
      TxTheorems.After;
    QueueingRuns(b.w, FramesFor(ms, b.w.nextId));
  }

  lemma WroteIs(w: World, count: nat)
    requires Sound(w.tx) && w.tx.watch
    ensures Possible(w, Wrote(count))
    ensures var w' := NextWorld(w, Wrote(count));
      w'.tx == OnWritable(w.tx, count) && w'.live == w.live && w'.known == w.known && w'.nextId == w.nextId
  {
    hide NextLog, OneTimer, Watched, WireIsFrame, AllFramesValid, OnWritable;
  }

  lemma OnWrite(b: Boot, count: nat)
    requires Sane(b) && b.w.tx.watch
    ensures CuePossible(b, Write(count))
    ensures var b' := OnCue(b, Write(count));
      && b'.w.tx == OnWritable(b.w.tx, count) && b'.e == b.e
      && b'.w.live == b.w.live && b'.w.known == b.w.known && b'.w.nextId == b.w.nextId
  {
    WroteIs(b.w, count);
    hide Sound, Possible, NextWorld, OnWritable, TxTheorems.LegalRun, TxTheorems.After;
    OneHappening(b.w, Wrote(count));
  }

  lemma AckedIs(w: World, e: Enum, r: Reply)
    requires Sound(w.tx) && EnumFsm.WellFormed(e)
    ensures var h := AckOf(w.tx, e, r, w.nextId);
      && h.Acked? && AllFramesValid(h.pushes) && Possible(w, h)
      && var w' := NextWorld(w, h);
      w'.tx == OnAck(w.tx, h.pushes, h.done) && w'.live == w.live && w'.known == w.known
      && w'.nextId == w.nextId + |h.pushes|
  {
    SentValid(e, r);
    FramesPossible(OnReply(e, r).sent, w.nextId);
    hide NextLog, Sound, OnAck, OnReply, FramesFor;
  }

  lemma OnAckIn(b: Boot, r: Reply)
    requires Sane(b)
    ensures CuePossible(b, AckIn(r))
    ensures var h, b' := AckOf(b.w.tx, b.e, r, b.w.nextId), OnCue(b, AckIn(r));
      && h.Acked? && AllFramesValid(h.pushes)
      && b'.w.tx == OnAck(b.w.tx, h.pushes, h.done) && b'.e == EnumAfter(b.w.tx, b.e, r)
      && b'.w.live == b.w.live && b'.w.known == b.w.known && b'.w.nextId == b.w.nextId + |h.pushes|
  {
    AckedIs(b.w, b.e, r);
    hide Sound, Possible, NextWorld, AckOf, OnReply, OnAck, TxTheorems.LegalRun, TxTheorems.After, AllFramesValid;
    OneHappening(b.w, AckOf(b.w.tx, b.e, r, b.w.nextId));
  }

  // ----- From power-on to addresses -----

  /** An ack of the gateway that says nothing else. */
  const EMPTY_ACK := Reply(0x81, 1, [])

  lemma EmptyAckIgnored(e: Enum)
    requires EnumFsm.WellFormed(e)
    ensures OnReply(e, EMPTY_ACK) == Reaction(e, [])
  {
    hide AddedUpTo;
  }

  lemma WriteServes(t: Tx)
    requires Sound(t) && t.frame == None && t.high != [] && !t.enumerated
    ensures t.watch
    ensures var t' := OnWritable(t, 200);
      && t'.high == t.high[1..] && t'.low == t.low && !t'.enumerated
      && (t'.frame == None || (t'.frame == Some(t.high[0]) && AwaitingAck(t') && !t'.cancelled))
      && (!t.high[0].Unanswered() ==> t'.frame.Some?)
  {
    WholeFits(t);
    hide AllFramesValid, Encode, OneTimer;
  }

  /** A frame that is waited for is acked. */
  lemma AckServes(b: Boot) returns (b': Boot)
    requires Reached(b) && Sane(b) && b.w.tx.low == [] && !b.w.tx.enumerated && b.w.live == {} && b.w.known == {}
    requires b.e.state != Done
    ensures Reached(b') && Between(b') && b'.e == b.e && b'.w.tx.high == b.w.tx.high
  {
    EmptyAckIgnored(b.e);
    OnAckIn(b, EMPTY_ACK);
    hide Reached, CuePossible, OnReply, Sound;
    ReachesOn(b, AckIn(EMPTY_ACK));
    b' := OnCue(b, AckIn(EMPTY_ACK));
    assert b.w.tx.high + [] == b.w.tx.high;
  }

  /** The first frame in the queue is written and, if it has to be, acked. */
  lemma Serve(b: Boot) returns (b': Boot)
    requires Reached(b) && Between(b) && b.w.tx.high != [] && b.e.state != Done
    ensures Reached(b') && Between(b') && b'.e == b.e && b'.w.tx.high == b.w.tx.high[1..]
  {
    WriteServes(b.w.tx);
    OnWrite(b, 200);
    hide Reached, CuePossible, Sound, OnWritable;
    ReachesOn(b, Write(200));
    b' := OnCue(b, Write(200));
    hide OnCue;
    if b'.w.tx.frame != None {
      b' := AckServes(b');
    }
  }

  lemma Drain(b: Boot, keep: nat) returns (b': Boot)
    requires Reached(b) && Between(b) && keep <= |b.w.tx.high| && b.e.state != Done
    ensures Reached(b') && Between(b') && b'.e == b.e && b'.w.tx.high == b.w.tx.high[|b.w.tx.high| - keep..]
    decreases |b.w.tx.high|
  {
    hide Reached, Between;
    if |b.w.tx.high| == keep {
      b' := b;
    } else {
      var b1 := Serve(b);
      b' := Drain(b1, keep);
    }
  }

  predicate FrameOf(f: TxFrame, m: Message) { f == FrameFor(m, f.id) }

  /** A timer fires, and all but the last frames queued for it are dealt with. */
  lemma Round(b: Boot, i: R.Input, keep: nat) returns (b': Boot)
    requires Reached(b) && Between(b) && b.w.tx.high == [] && !i.Received? && R.Possible(b.e, i)
    requires R.React(b.e, i).e.state != Done && keep <= |R.React(b.e, i).sent|
    ensures Reached(b') && Between(b') && b'.e == R.React(b.e, i).e && |b'.w.tx.high| == keep
    ensures var ms := R.React(b.e, i).sent;
      forall n :: 0 <= n < keep ==> FrameOf(b'.w.tx.high[n], ms[|ms| - keep + n])
  {
    var b1 := Fires(b, i);
    hide R.React, R.Possible, Between, Reached, Sane;
    b' := Drain(b1, keep);
  }

  lemma Fires(b: Boot, i: R.Input) returns (b': Boot)
    requires Reached(b) && Between(b) && b.w.tx.high == [] && !i.Received? && R.Possible(b.e, i)
    ensures Reached(b') && Between(b') && b'.e == R.React(b.e, i).e
    ensures b'.w.tx.high == FramesFor(R.React(b.e, i).sent, b.w.nextId)
  {
    OnTimer(b, i);
    hide R.React, R.Possible, Reached, CuePossible, OnCue, Sound, FramesFor;
    ReachesOn(b, Timed(i));
    b' := OnCue(b, Timed(i));
    assert [] + FramesFor(R.React(b.e, i).sent, b.w.nextId) == FramesFor(R.React(b.e, i).sent, b.w.nextId);
  }

  predicate Resetted(e: Enum, n: nat) {
    e.state == Resetting && e.resetTimer && e.resetCount == n && e.next == 2 && EnumFsm.WellFormed(e)
  }

  predicate Killing(e: Enum) {
    e.state == KillingToken && e.killTimer && e.resetCount == 0 && e.next == 2 && EnumFsm.WellFormed(e)
  }

  lemma StartReaction()
    ensures R.Possible(POWER_ON, R.Start) && Killing(R.React(POWER_ON, R.Start).e)
  {}

  lemma KillReaction(e: Enum)
    requires Killing(e)
    ensures R.Possible(e, R.KillTimeout) && Resetted(R.React(e, R.KillTimeout).e, 0)
  {}

  lemma ResetReaction(e: Enum, n: nat)
    requires Resetted(e, n) && n <= 5
    ensures R.Possible(e, R.ResetTimeout)
    ensures var x := R.React(e, R.ResetTimeout);
      if n < 5 then Resetted(x.e, n + 1)
      else x.e.state == Enumerating && x.e.next == 2 && x.sent == [GenToken(), ReqToken(), HaveToken()]
  {}

  /** Five resets. */
  lemma Resets(b: Boot, n: nat) returns (b': Boot)
    requires Reached(b) && Between(b) && b.w.tx.high == [] && Resetted(b.e, n) && n <= 5
    ensures Reached(b') && Between(b') && b'.w.tx.high == [] && Resetted(b'.e, 5)
    decreases 5 - n
  {
    hide Reached, Between, R.React, R.Possible;
    if n == 5 {
      return b;
    }
    ResetReaction(b.e, n);
    var b1 := Round(b, R.ResetTimeout, 0);
    b' := Resets(b1, n + 1);
  }

  /** The bus is reset, and whether the token is back is about to be asked. */
  lemma UntilReset() returns (b: Boot)
    ensures Reached(b) && Between(b) && b.e.state == Enumerating && b.e.next == 2
    ensures |b.w.tx.high| == 1 && FrameOf(b.w.tx.high[0], HaveToken())
  {
    PoweredReached();
    hide Reached, R.React, R.Possible, Sane;
    StartReaction();
    assert Between(POWERED);
    hide Between, FrameOf, HaveToken;
    var b1 := Round(POWERED, R.Start, 0);
    KillReaction(b1.e);
    var b2 := Round(b1, R.KillTimeout, 0);
    var b3 := Resets(b2, 0);
    ResetReaction(b3.e, 5);
    b := Round(b3, R.ResetTimeout, 1);
  }

  // ----- The gateway alone -----

  const TOKEN_BACK := Reply(0x81, 1, [1])

  lemma TokenBackReaction(e: Enum)
    requires EnumFsm.WellFormed(e) && e.state == Enumerating && e.next == 2
    ensures OnReply(e, TOKEN_BACK) == Reaction(e.(state := SettingGwAddr), [AddrAssign(2)])
  {}

  /** The next frame is written to the end, if it is one that is waited for. */
  lemma WriteNext(b: Boot) returns (b': Boot)
    requires Reached(b) && Between(b) && b.w.tx.high != [] && !b.w.tx.high[0].Unanswered()
    ensures Reached(b') && Sane(b') && b'.e == b.e && Consults(b'.w.tx) && AwaitingAck(b'.w.tx)
    ensures b'.w.tx.high == b.w.tx.high[1..] && b'.w.tx.low == []
    ensures b'.w.live == {} && b'.w.known == {} && b'.w.tx.frame == Some(b.w.tx.high[0])
  {
    WriteServes(b.w.tx);
    OnWrite(b, 200);
    hide Reached, CuePossible, Sound, OnWritable;
    ReachesOn(b, Write(200));
    b' := OnCue(b, Write(200));
  }

  /** An ack comes in for the frame in flight. */
  lemma AckNext(b: Boot, r: Reply) returns (b': Boot)
    requires Reached(b) && Sane(b) && Consults(b.w.tx) && b.w.tx.low == [] && b.w.live == {} && b.w.known == {}
    ensures Reached(b') && Sane(b') && b'.e == OnReply(b.e, r).e && b'.w.tx.frame == None
    ensures b'.w.tx.high == b.w.tx.high + FramesFor(OnReply(b.e, r).sent, b.w.nextId)
    ensures b'.w.tx.enumerated <==> b'.e.state == Done
    ensures b'.w.tx.low == [] && b'.w.live == {} && b'.w.known == {}
  {
    OnAckIn(b, r);
    hide Reached, CuePossible, Sound, OnReply, FramesFor;
    ReachesOn(b, AckIn(r));
    b' := OnCue(b, AckIn(r));
  }

  lemma SaneEnum(b: Boot)
    requires Sane(b)
    ensures EnumFsm.WellFormed(b.e)
  {}

  /** Address 2 is on offer to the gateway. */
  lemma GatewayOffered() returns (b: Boot)
    ensures Reached(b) && Sane(b) && Consults(b.w.tx) && b.w.tx.high == [] && b.w.tx.low == []
    ensures b.w.live == {} && b.w.known == {} && b.e.state == SettingGwAddr && b.e.next == 2
  {
    var b1 := UntilReset();
    assert !b1.w.tx.high[0].Unanswered();
    hide Reached, Sane;
    var b2 := WriteNext(b1);
    SaneEnum(b2);
    TokenBackReaction(b2.e);
    hide OnReply, AddrAssign;
    var b3 := AckNext(b2, TOKEN_BACK);
    assert [] + FramesFor([AddrAssign(2)], b2.w.nextId) == FramesFor([AddrAssign(2)], b2.w.nextId);
    b := WriteNext(b3);
  }

  /** The gateway has taken address 2, and three frames are queued. */
  lemma GatewayTakes() returns (b: Boot)
    ensures Reached(b) && Between(b) && b.e.state == FetchingClasses && b.e.next == 3 && b.e.info == 3
    ensures OnReply(b.e, DATA_FROM_5).e.state == Done && OnReply(b.e, DATA_FROM_5).sent == []
    ensures |b.w.tx.high| == 3 && FrameOf(b.w.tx.high[0], UseToken(true)) && FrameOf(b.w.tx.high[1], GenToken())
    ensures FrameOf(b.w.tx.high[2], AddrInfo(2))
  {
    var b1 := GatewayOffered();
    SaneEnum(b1);
    EarlyReplies(b1.e);
    NextFetched(b1.e);
    hide Reached, Sane, OnReply, Sound;
    b := AckNext(b1, ACK_FROM_2);
  }

  lemma NextFetched(e: Enum)
    requires EnumFsm.WellFormed(e) && e.state == SettingGwAddr && e.next == 2
    ensures OnReply(e, ACK_FROM_2).e.next == 3 && OnReply(e, ACK_FROM_2).e.info == 3
  {
    hide AddedUpTo;
  }

  /** Enumeration is over, but two of its frames are queued; the ack of the next one, as soon as a byte of it is
      written, would be handed to the marker as if that were a client. */
  predicate EndedEarly(b: Boot) {
    && b.e.state == Done && b.w.tx.enumerated
    && |b.w.tx.high| == 2 && FrameOf(b.w.tx.high[0], GenToken()) && FrameOf(b.w.tx.high[1], AddrInfo(2))
    && Sane(b) && CuePossible(b, Write(1)) && Delivered(OnCue(b, Write(1)).w.tx) == Some(EnumTag)
  }

  /** From power-on, with nobody but the gateway on the bus, a byte of data from 5 that comes in too early does that. */
  lemma EarlyEndReached()
    ensures exists b :: Reached(b) && EndedEarly(b)
  {
    var b1 := GatewayTakes();
    hide Reached, OnReply;
    var b2 := WriteNext(b1);
    assert FramesFor([], b2.w.nextId) == [];
    var b3 := AckNext(b2, DATA_FROM_5);
    assert b3.w.tx.high == b1.w.tx.high[1..];
    MarkerWritten(b3);
    assert EndedEarly(b3);
  }

  lemma MarkerWritten(b: Boot)
    requires Sane(b) && b.w.tx.enumerated && b.w.tx.frame == None
    requires b.w.tx.high != [] && b.w.tx.high[0].tag == EnumTag
    ensures CuePossible(b, Write(1)) && Delivered(OnCue(b, Write(1)).w.tx) == Some(EnumTag)
  {
    assert b.w.tx.watch;
    MarkerNext(b.w.tx, b.w.tx.high[0]);
    hide CuePossible, Sound, OnWritable, Delivered;
    OnWrite(b, 1);
  }

  /** From power-on, with nobody but the gateway on the bus, enumeration can end as it should; then clients can
      connect, and are served. */
  lemma ServiceReached(c: nat)
    ensures exists b :: Reached(b) && b.e.state == Done && Sane(b) && Possible(b.w, Connected(c))
                        && Ready(c, NextWorld(b.w, Connected(c)))
  {
    var data := Reply(0x81, 2, [7]);
    var b1 := GatewayTakes();
    hide Reached, OnReply, Between;
    var b2 := Drain(b1, 1);
    assert FrameOf(b2.w.tx.high[0], AddrInfo(2));
    assert !b2.w.tx.high[0].Unanswered();
    var b3 := WriteNext(b2);
    SaneEnum(b3);
    LastClass(b3.e, data);
    assert FramesFor([], b3.w.nextId) == [];
    var b4 := AckNext(b3, data);
    FirstClient(c, b4);
  }

  lemma LastClass(e: Enum, r: Reply)
    requires EnumFsm.WellFormed(e) && e.state == FetchingClasses && e.next == 3 && e.info == 3
    requires r == Reply(0x81, 2, [7])
    ensures OnReply(e, r).e.state == Done && OnReply(e, r).sent == []
  {
    hide AddedUpTo;
  }

  lemma FirstClient(c: nat, b: Boot)
    requires Sane(b) && b.w.tx.enumerated && b.w.tx.frame == None && b.w.tx.high == [] && b.w.tx.low == []
    requires b.w.live == {} && b.w.known == {}
    ensures Possible(b.w, Connected(c)) && Ready(c, NextWorld(b.w, Connected(c)))
  {
    hide Sound, NextLog;
  }
}
