/** From power-on, the transmitter carries what the enumeration code sends: those very messages, in that order. */
module EnumOnWire {
  import opened Bytes
  import opened Frame
  import opened Encoding
  import opened EnumFsm
  import R = EnumRuns
  import opened EnumScript
  import opened EnumLink
  import opened OutputQueue
  import opened TxModel
  import opened TxRuns
  import TxTheorems
  import opened FrameHandler
  import opened StartUp

  /** A frame that is no answer to somebody else's. */
  predicate IsCommand(f: TxFrame) { f.address / 0x80 % 2 == 0 }

  function Commands(fs: seq<TxFrame>): seq<TxFrame> {
    if fs == [] then []
    else Commands(fs[..|fs| - 1]) + if IsCommand(fs[|fs| - 1]) then [fs[|fs| - 1]] else []
  }

  lemma {:induction false} CommandsAppend(x: seq<TxFrame>, y: seq<TxFrame>)
    ensures Commands(x + y) == Commands(x) + Commands(y)
    decreases |y|
  {
    hide IsCommand;
    if y == [] {
      assert x + y == x;
    } else {
      assert (x + y)[..|x + y| - 1] == x + y[..|y| - 1];
      CommandsAppend(x, y[..|y| - 1]);
    }
  }

  lemma {:induction false} MessagesAppend(x: seq<TxFrame>, y: seq<TxFrame>)
    ensures Messages(x + y) == Messages(x) + Messages(y)
    decreases |y|
  {
    if y == [] {
      assert x + y == x;
    } else {
      assert (x + y)[..|x + y| - 1] == x + y[..|y| - 1];
      MessagesAppend(x, y[..|y| - 1]);
    }
  }

  lemma {:induction false} AllCommands(fs: seq<TxFrame>)
    requires forall f :: f in fs ==> IsCommand(f)
    ensures Commands(fs) == fs
  {
    hide IsCommand;
    if fs != [] {
      AllCommands(fs[..|fs| - 1]);
    }
  }

  predicate Carriable(ms: seq<Message>) {
    forall m :: m in ms ==> m.Valid() && m.dest < 0x80
  }

  lemma AllCarried(ms: seq<Message>, id: nat)
    requires Carriable(ms)
    ensures Messages(Commands(FramesFor(ms, id))) == ms
  {
    var fs := FramesFor(ms, id);
    forall f | f in fs ensures IsCommand(f) {
      var i :| 0 <= i < |fs| && fs[i] == f;
      assert ms[i] in ms;
    }
    AllCommands(fs);
    FramesCarry(ms, id);
  }

  // ----- What the enumeration code sends, cue by cue -----

  function InputOf(b: Boot, cue: Cue): Option<R.Input>
  {
    match cue
    case Timed(i) => Some(i)
    case AckIn(r) => if Consults(b.w.tx) && b.e.state != Exited then Some(R.Received(r)) else None
    case _ => None
  }

  function SentAt(b: Boot, cue: Cue): seq<Message>
    requires Sane(b)
  {
    if InputOf(b, cue) == None then [] else R.React(b.e, InputOf(b, cue).value).sent
  }

  function SentBy(b: Boot, cues: seq<Cue>): seq<Message>
    requires Sane(b) && LegalCues(b, cues)
    decreases |cues|
  {
    if cues == [] then [] else SentAt(b, cues[0]) + SentBy(OnCue(b, cues[0]), cues[1..])
  }

  lemma ExitedSilent(e: Enum, r: Reply)
    requires EnumFsm.WellFormed(e) && e.state == Exited
    ensures OnReply(e, r) == Reaction(e, [])
  {}

  lemma SendsCarriable(e: Enum, i: R.Input)
    requires EnumFsm.WellFormed(e)
    ensures Carriable(R.React(e, i).sent)
  {
    hide AddedUpTo;
  }

  /** A cue does to the enumeration code what its input does. */
  lemma CueReacts(b: Boot, cue: Cue)
    requires Sane(b) && CuePossible(b, cue)
    ensures var i := InputOf(b, cue);
      match i
      case None => OnCue(b, cue).e == b.e && SentAt(b, cue) == []
      case Some(input) => R.Possible(b.e, input) && OnCue(b, cue).e == R.React(b.e, input).e
  {
    if cue.AckIn? && b.e.state == Exited {
      ExitedSilent(b.e, cue.r);
    }
    hide OnReply, Makes, TxTheorems.LegalRun, TxTheorems.After;
  }

  // ----- What the transmitter gets -----

  /** Nothing was taken off the queues, and the commands pushed carry what was sent. */
  ghost predicate Carries(b: Boot, sent: seq<Message>) {
    Inv(b.w) && b.w.log.dropped == [] && Messages(Commands(b.w.log.pushedHigh)) == sent
  }

  /** What one happening adds. */
  lemma HappeningPushes(w: World, h: Happening)
    requires Inv(w) && Possible(w, h) && (h.Wrote? || h.TimedOut? || h.Acked? || h.Responded? || h.Enumerated?)
    ensures var w' := NextWorld(w, h);
      Inv(w') && w'.log.pushedHigh == w.log.pushedHigh + Pushes(w, h) && w'.log.dropped == w.log.dropped
  {
    InvStep(w, h);
    PushChanges(w, h);
    hide Sound, Conserved, Distinct, FirstComeFirstSent, Step, Enabled, AddIf, GoneOnWritable;
  }

  lemma OneHappens(w: World, h: Happening)
    requires Inv(w) && TxTheorems.LegalRun(w, [h])
    requires h.Wrote? || h.TimedOut? || h.Acked? || h.Responded? || h.Enumerated?
    ensures Possible(w, h)
    ensures var w' := TxTheorems.After(w, [h]);
      Inv(w') && w'.log.pushedHigh == w.log.pushedHigh + Pushes(w, h) && w'.log.dropped == w.log.dropped
  {
    assert [h][0] == h && [h][1..] == [];
    HappeningPushes(w, h);
    hide Inv, Possible, NextWorld, Pushes;
    OneHappening(w, h) by {
      SoundOf(w);
    }
  }

  lemma SoundOf(w: World)
    requires Inv(w)
    ensures Sound(w.tx)
  {}

  lemma {:induction false} QueueingPushes(w: World, fs: seq<TxFrame>)
    requires Inv(w) && TxTheorems.LegalRun(w, Queueing(fs))
    ensures var w' := TxTheorems.After(w, Queueing(fs));
      Inv(w') && w'.log.pushedHigh == w.log.pushedHigh + fs && w'.log.dropped == w.log.dropped
    decreases |fs|
  {
    if fs == [] {
      assert w.log.pushedHigh + [] == w.log.pushedHigh;
    } else {
      var h := Enumerated(fs[0]);
      assert ([h] + Queueing(fs[1..]))[1..] == Queueing(fs[1..]);
      HappeningPushes(w, h);
      assert Pushes(w, h) == [fs[0]];
      hide Inv, Possible, NextWorld, Pushes;
      QueueingPushes(NextWorld(w, h), fs[1..]);
      assert w.log.pushedHigh + [fs[0]] + fs[1..] == w.log.pushedHigh + fs;
    }
  }

  /** What a cue makes the transmitter queue at the high priority. */
  function PushedAt(b: Boot, cue: Cue): seq<TxFrame>
    requires Sane(b)
  {
    match cue
    case Timed(i) => FramesFor(R.React(b.e, i).sent, b.w.nextId)
    case AckIn(r) => if Consults(b.w.tx) then FramesFor(OnReply(b.e, r).sent, b.w.nextId) else []
    case Hears(f) => if |f| >= OVERHEAD then [Response(f, b.w.nextId)] else []
    case _ => []
  }

  lemma CuePushes(b: Boot, cue: Cue)
    requires Sane(b) && CuePossible(b, cue) && Inv(b.w)
    ensures var w' := OnCue(b, cue).w;
      Inv(w') && w'.log.pushedHigh == b.w.log.pushedHigh + PushedAt(b, cue) && w'.log.dropped == b.w.log.dropped
  {
    hide Inv, TxTheorems.LegalRun, TxTheorems.After, R.React, OnReply, FramesFor, Response, Queueing;
    match cue
    case Timed(i) => QueueingPushes(b.w, FramesFor(R.React(b.e, i).sent, b.w.nextId));
    case Write(count) => OneHappens(b.w, Wrote(count));
    case AckIn(r) => OneHappens(b.w, AckOf(b.w.tx, b.e, r, b.w.nextId));
    case Expires(id) => OneHappens(b.w, TimedOut(id));
    case Hears(f) => OneHappens(b.w, Responded(Response(f, b.w.nextId)));
  }

  lemma ResponseNoCommand(f: seq<byte>, id: nat)
    requires |f| >= OVERHEAD
    ensures Messages(Commands([Response(f, id)])) == []
  {
    assert [Response(f, id)][..0] == [];
  }

  /** The commands among them carry what the enumeration code sends at that cue. */
  lemma PushedIsSent(b: Boot, cue: Cue)
    requires Sane(b) && CuePossible(b, cue)
    ensures Messages(Commands(PushedAt(b, cue))) == SentAt(b, cue)
  {
    hide TxTheorems.LegalRun, Makes, FramesFor, Response, Messages, Commands, OnReply, R.Possible;
    assert Messages(Commands([])) == [] by {
      NoMessages();
    }
    match cue
    case Timed(i) =>
      SendsCarriable(b.e, i);
      hide R.React;
      AllCarried(R.React(b.e, i).sent, b.w.nextId);
    case AckIn(r) =>
      if Consults(b.w.tx) {
        SendsCarriable(b.e, R.Received(r));
        if b.e.state == Exited {
          ExitedSilent(b.e, r);
        }
        AllCarried(OnReply(b.e, r).sent, b.w.nextId);
      }
    case Hears(f) => ResponseNoCommand(f, b.w.nextId);
    case _ =>
  }

  lemma NoMessages()
    ensures Messages(Commands([])) == []
  {}

  lemma CarriesStep(b: Boot, cue: Cue, sent: seq<Message>)
    requires Sane(b) && CuePossible(b, cue) && Carries(b, sent)
    ensures Carries(OnCue(b, cue), sent + SentAt(b, cue))
  {
    CuePushes(b, cue);
    PushedIsSent(b, cue);
    hide Sane, CuePossible, Inv, OnCue, PushedAt, SentAt, Messages, Commands;
    CommandsAppend(b.w.log.pushedHigh, PushedAt(b, cue));
    MessagesAppend(Commands(b.w.log.pushedHigh), Commands(PushedAt(b, cue)));
  }

  lemma {:induction false} RunCarries(b: Boot, cues: seq<Cue>, sent: seq<Message>)
    requires Sane(b) && LegalCues(b, cues) && Carries(b, sent)
    ensures Carries(AfterCues(b, cues), sent + SentBy(b, cues))
    decreases |cues|
  {
    if cues == [] {
      assert sent + [] == sent;
    } else {
      CarriesStep(b, cues[0], sent);
      hide Sane, CuePossible, Carries, OnCue, SentAt;
      RunCarries(OnCue(b, cues[0]), cues[1..], sent + SentAt(b, cues[0]));
      ConcatAssoc(sent, SentAt(b, cues[0]), SentBy(OnCue(b, cues[0]), cues[1..]));
    }
  }

  lemma {:induction false} RunKeepsScript(b: Boot, cues: seq<Cue>, sent: seq<Message>)
    requires Sane(b) && LegalCues(b, cues) && InPhase(b.e) && sent == Script(b.e)
    ensures InPhase(AfterCues(b, cues).e) && sent + SentBy(b, cues) == Script(AfterCues(b, cues).e)
    decreases |cues|
  {
    if cues == [] {
      assert sent + [] == sent;
    } else {
      var cue := cues[0];
      CueReacts(b, cue);
      if InputOf(b, cue).Some? {
        ScriptStep(b.e, InputOf(b, cue).value);
      }
      assert sent + [] == sent;
      hide CuePossible, OnCue, Script, InPhase, InputOf, R.React, R.Possible;
      RunKeepsScript(OnCue(b, cue), cues[1..], sent + SentAt(b, cue));
      ConcatAssoc(sent, SentAt(b, cue), SentBy(OnCue(b, cue), cues[1..]));
    }
  }

  /** After power-on and anything that the timers, the port and the bus do, the commands that were begun, followed by
      those still queued, are the script of the state that the enumeration code is in: with these contents, to these
      addresses, in this order, none missing and none twice. */
  lemma CommandsInOrder(cues: seq<Cue>)
    requires Sane(POWERED) && LegalCues(POWERED, cues)
    ensures var b := AfterCues(POWERED, cues);
      && Messages(Commands(b.w.log.startedHigh + b.w.tx.high)) == SentBy(POWERED, cues)
      && SentBy(POWERED, cues) == Script(b.e)
      && (b.w.tx.frame.Some? ==>
            b.w.tx.frame.value.Valid() && b.w.tx.wire == Encode(b.w.tx.frame.value.ToMessage()))
  {
    var b := AfterCues(POWERED, cues);
    TxTheorems.GenesisInv();
    NoMessages();
    assert Carries(POWERED, []);
    hide LegalCues, AfterCues, SentBy, Messages, Commands, Script, Encode;
    RunCarries(POWERED, cues, []);
    StartsInPhase();
    RunKeepsScript(POWERED, cues, []);
    assert [] + SentBy(POWERED, cues) == SentBy(POWERED, cues);
    KeptAll(b.w.log.pushedHigh, []);
  }

  lemma StartsInPhase()
    ensures InPhase(POWER_ON) && Script(POWER_ON) == []
  {}
}
