/** When a response can come in late: one application's conversation together with the daemon's transmitter.
    A poll for responses that expires takes all that the client had to send off the queues (sricd/ipc.c), so that only
    what it sends afterwards can still be answered. */
module LateResponses {
  import opened Bytes
  import opened Encoding
  import opened OutputQueue
  import opened TxModel
  import opened TxRuns
  import TxTheorems
  import opened ClientSafety
  import opened Ipc
  import D = Delivery
  import S = Session

  /** What happens at the client's socket, in the transmitter, or in both at once. */
  datatype Moment = Moment(e: Option<S.Event>, h: Option<Happening>)

  datatype Joint = Joint(s: S.Session, w: World)

  predicate Arrival(m: Moment) { m.e.Some? && m.e.value.Arrives? && m.e.value.kind == S.Responses }

  predicate Expiry(m: Moment) { m.e.Some? && m.e.value.Expires? && m.e.value.kind == S.Responses }

  predicate Transmits(c: nat, m: Moment) { m.h.Some? && m.h.value.Sent? && m.h.value.client == c }

  /** The application asks for a response, and is prepared to wait for it. */
  predicate Blocks(m: Moment) {
    m.e.Some? && m.e.value.Ask? && m.e.value.c.Poll? && m.e.value.c.kind == S.Responses && m.e.value.c.timeout != 0
  }

  /** Client c gets a response exactly when an ack for a frame of it comes in; its frames are cancelled exactly when a
      poll for responses expires; and it sends by a command that succeeds, to an address that a device can have. */
  predicate Coupled(c: nat, t: Tx, m: Moment) {
    && (m.e.Some? && m.h.Some? ==> Arrival(m) || Expiry(m) || Transmits(c, m))
    && (Arrival(m) <==> m.h.Some? && m.h.value.Acked? && Delivered(t) == Some(ClientTag(c)))
    && (Expiry(m) <==> m.h == Some(PollTimedOut(c)))
    && (Transmits(c, m) ==> m.e == Some(S.Ask(S.Command(E_SUCCESS))) && 0 <= m.h.value.f.address < 128)
    && m.h != Some(Died(c))
  }

  /** Only frames that are answered are waited for. */
  predicate WaitsForAnswer(t: Tx) { AwaitingAck(t) ==> !t.frame.value.Unanswered() }

  /** The bus is enumerated and c is connected. */
  predicate Ready(c: nat, w: World) {
    Sound(w.tx) && TagsFine(w) && WaitsForAnswer(w.tx) && w.tx.enumerated && c in w.live
  }

  predicate Enabled(c: nat, j: Joint, m: Moment) {
    && Coupled(c, j.w.tx, m)
    && (m.e.Some? ==> S.Enabled(j.s, m.e.value))
    && (m.h.Some? ==> Possible(j.w, m.h.value) && Orderly(j.w, m.h.value))
  }

  function Next(c: nat, j: Joint, m: Moment): Joint
    requires Ready(c, j.w) && Enabled(c, j, m)
  {
    Joint(if m.e.Some? then S.Next(j.s, m.e.value) else j.s, if m.h.Some? then NextWorld(j.w, m.h.value) else j.w)
  }

  lemma WriteWaits(t: Tx, count: nat)
    requires Sound(t) && WaitsForAnswer(t)
    ensures WaitsForAnswer(OnWritable(t, count)) && OnWritable(t, count).enumerated == t.enumerated
  {
    hide AllFramesValid, Encode, OneTimer, Watched;
  }

  /** What a happening does to the transmitter. */
  lemma NextTxIs(w: World, h: Happening)
    requires Sound(w.tx) && Possible(w, h)
    ensures NextWorld(w, h).tx == if ToEvent(h).Some? then Step(w.tx, ToEvent(h).value) else w.tx
  {
    hide Sound, NextLog, Enabled, Step;
  }

  lemma WaitsNext(w: World, h: Happening)
    requires Sound(w.tx) && WaitsForAnswer(w.tx) && Possible(w, h)
    ensures WaitsForAnswer(NextWorld(w, h).tx)
  {
    NextTxIs(w, h);
    hide NextLog, WellFormed, OneTimer, Watched, AllFramesValid, OnWritable;
    if h.Wrote? {
      WriteWaits(w.tx, h.count);
    }
    hide Sound;
  }

  lemma StillServed(c: nat, w: World, h: Happening)
    requires Ready(c, w) && Possible(w, h) && h != Died(c)
    ensures NextWorld(w, h).tx.enumerated && c in NextWorld(w, h).live && WaitsForAnswer(NextWorld(w, h).tx)
  {
    NextTxIs(w, h);
    WaitsNext(w, h);
    hide NextLog, WellFormed, OneTimer, Watched, TagsFine, AllFramesValid, OnWritable, WaitsForAnswer;
    if h.Wrote? {
      WriteWaits(w.tx, h.count);
    }
    hide Sound;
  }

  lemma {:induction false} RunWaits(w: World, hs: seq<Happening>)
    requires Sound(w.tx) && TxTheorems.LegalRun(w, hs) && WaitsForAnswer(w.tx)
    ensures WaitsForAnswer(TxTheorems.After(w, hs).tx)
    decreases |hs|
  {
    if hs != [] {
      NextSound(w, hs[0]);
      WaitsNext(w, hs[0]);
      hide Sound, WaitsForAnswer, Possible, NextWorld;
      RunWaits(NextWorld(w, hs[0]), hs[1..]);
    }
  }

  /** Every connected client is, after any orderly run of the daemon. */
  lemma ClientsAreReady(c: nat, hs: seq<Happening>)
    requires TxTheorems.LegalRun(GENESIS, hs) && OrderlyRun(GENESIS, hs) && c in TxTheorems.After(GENESIS, hs).live
    ensures Ready(c, TxTheorems.After(GENESIS, hs))
  {
    assert TagsFine(GENESIS) && WaitsForAnswer(GENESIS.tx);
    hide TxTheorems.After, TxTheorems.LegalRun, OrderlyRun, Sound, WaitsForAnswer, QueueFine;
    RunTags(GENESIS, hs);
    RunWaits(GENESIS, hs);
  }

  lemma ReadyNext(c: nat, j: Joint, m: Moment)
    requires Ready(c, j.w) && Enabled(c, j, m)
    ensures Ready(c, Next(c, j, m).w)
  {
    if m.h.Some? {
      NextSound(j.w, m.h.value);
      TagsStep(j.w, m.h.value);
      StillServed(c, j.w, m.h.value);
    }
    hide Sound, TagsFine, Possible, Orderly, NextWorld, S.Next, S.Enabled, WaitsForAnswer;
  }

  predicate Legal(c: nat, j: Joint, ms: seq<Moment>)
    requires Ready(c, j.w)
    decreases |ms|
  {
    ms == [] || (Enabled(c, j, ms[0]) && (ReadyNext(c, j, ms[0]); Legal(c, Next(c, j, ms[0]), ms[1..])))
  }

  function After(c: nat, j: Joint, ms: seq<Moment>): (r: Joint)
    requires Ready(c, j.w) && Legal(c, j, ms)
    ensures Ready(c, r.w)
    decreases |ms|
  {
    if ms == [] then j else
      ReadyNext(c, j, ms[0]);
      After(c, Next(c, j, ms[0]), ms[1..])
  }

  function EventOf(m: Moment): seq<S.Event> { if m.e.Some? then [m.e.value] else [] }

  function EventsOf(ms: seq<Moment>): seq<S.Event> {
    if ms == [] then [] else EventOf(ms[0]) + EventsOf(ms[1..])
  }

  function HappeningsOf(ms: seq<Moment>): seq<Happening> {
    if ms == [] then [] else (if ms[0].h.Some? then [ms[0].h.value] else []) + HappeningsOf(ms[1..])
  }

  /** What each side sees is a run of it. */
  lemma {:induction false} RunsOfBoth(c: nat, j: Joint, ms: seq<Moment>)
    requires Ready(c, j.w) && Legal(c, j, ms)
    ensures S.Legal(j.s, EventsOf(ms)) && S.After(j.s, EventsOf(ms)) == After(c, j, ms).s
    ensures TxTheorems.LegalRun(j.w, HappeningsOf(ms))
    ensures TxTheorems.After(j.w, HappeningsOf(ms)) == After(c, j, ms).w
    decreases |ms|
  {
    if ms != [] {
      var m := ms[0];
      ReadyNext(c, j, m);
      RunsOfBoth(c, Next(c, j, m), ms[1..]);
      hide S.Enabled, S.Next, Possible, NextWorld, Orderly, Coupled, TagsFine, Sound, WaitsForAnswer;
      if m.e.Some? {
        assert ([m.e.value] + EventsOf(ms[1..]))[1..] == EventsOf(ms[1..]);
      } else {
        assert [] + EventsOf(ms[1..]) == EventsOf(ms[1..]);
      }
      if m.h.Some? {
        assert ([m.h.value] + HappeningsOf(ms[1..]))[1..] == HappeningsOf(ms[1..]);
      } else {
        assert [] + HappeningsOf(ms[1..]) == HappeningsOf(ms[1..]);
      }
    }
  }

  // ----- What the client still has on its way -----

  predicate Own(c: nat, f: TxFrame) { f.tag == ClientTag(c) && !f.Unanswered() }

  /** A frame of the client is queued, or in flight and not cancelled. */
  ghost predicate Tagged(c: nat, t: Tx) {
    || (t.frame.Some? && !t.cancelled && t.frame.value.tag == ClientTag(c))
    || exists f :: (f in t.high || f in t.low) && f.tag == ClientTag(c)
  }

  /** And one that will be answered. */
  ghost predicate Pending(c: nat, t: Tx) {
    || (t.frame.Some? && !t.cancelled && Own(c, t.frame.value))
    || exists f :: (f in t.high || f in t.low) && Own(c, f)
  }

  /** What a write does to frames: it goes on with the one in flight, or takes the next one off its queue. */
  predicate WrittenOn(t: Tx, t': Tx) {
    && (t.frame.Some? ==> t'.high == t.high && t'.low == t.low && t'.cancelled == t.cancelled
                          && (t'.frame == t.frame || (t'.frame == None && t.frame.value.Unanswered())))
    && (t.frame.None? ==>
        || (t'.high == t.high && t'.low == t.low && t'.frame == None && t.high == [] && (t.enumerated ==> t.low == []))
        || (t.high != [] && t'.high == t.high[1..] && t'.low == t.low && Takes(t.high[0], t'))
        || (t.low != [] && t'.low == t.low[1..] && t'.high == t.high && Takes(t.low[0], t')))
  }

  predicate Takes(f: TxFrame, t': Tx) {
    (t'.frame == Some(f) && !t'.cancelled) || (t'.frame == None && f.Unanswered())
  }

  lemma WriteShape(t: Tx, count: nat)
    requires Sound(t)
    ensures WrittenOn(t, OnWritable(t, count))
  {
    hide AllFramesValid, Encode, OneTimer, Watched;
  }

  lemma WriteKeepsTagged(c: nat, t: Tx, t': Tx)
    requires WrittenOn(t, t') && Tagged(c, t')
    ensures Tagged(c, t)
  {
    assert forall f :: f in t'.high ==> f in t.high;
    assert forall f :: f in t'.low ==> f in t.low;
    assert t.high != [] ==> t.high[0] in t.high;
    assert t.low != [] ==> t.low[0] in t.low;
  }

  lemma WriteKeepsPending(c: nat, t: Tx, t': Tx)
    requires WrittenOn(t, t') && Pending(c, t) && t.enumerated
    ensures Pending(c, t')
  {
    if t.frame.None? {
      var f :| (f in t.high || f in t.low) && Own(c, f);
      if t.high != [] {
        HeadTail(t.high);
      }
      if t.low != [] {
        HeadTail(t.low);
      }
      assert f in t'.high || f in t'.low || t'.frame == Some(f);
    }
  }

  /** How far the application is: no expired poll for responses to speak of, one and nothing sent since, or something
      sent since. */
  datatype Stage = Closed | Expired | Exposed

  function NextStage(c: nat, st: Stage, m: Moment): Stage {
    if Expiry(m) then Expired
    else if st == Closed || Arrival(m) || Blocks(m) then Closed
    else if Transmits(c, m) then Exposed
    else st
  }

  ghost predicate Tracks(c: nat, st: Stage, t: Tx) {
    && (st == Expired ==> !Tagged(c, t))
    && (st == Exposed ==> Pending(c, t))
  }

  lemma CancelClears(c: nat, t: Tx)
    ensures !Tagged(c, OnCancel(t, ClientTag(c)))
  {
    hide Without;
  }

  lemma OthersCancelled(c: nat, d: nat, t: Tx, st: Stage)
    requires c != d && Tracks(c, st, t)
    ensures Tracks(c, st, OnCancel(t, ClientTag(d)))
  {
    hide Without;
    var t' := OnCancel(t, ClientTag(d));
    assert forall f :: f in t'.high ==> f in t.high;
    assert forall f :: f in t'.low ==> f in t.low;
    if st == Exposed && exists f :: (f in t.high || f in t.low) && Own(c, f) {
      var f :| (f in t.high || f in t.low) && Own(c, f);
      assert f in t'.high || f in t'.low;
    }
  }

  lemma OneMoreQueued(c: nat, t: Tx, f: TxFrame, pri: nat, st: Stage)
    requires Tracks(c, st, t) && f.tag != ClientTag(c)
    ensures Tracks(c, st, OnPush(t, f, pri))
  {
    var t' := OnPush(t, f, pri);
    assert forall g :: g in t'.high || g in t'.low <==> g in t.high || g in t.low || g == f;
  }

  /** Once enumerated, an ack takes the frame in flight away and queues nothing. */
  lemma AckTracks(c: nat, t: Tx, pushes: seq<TxFrame>, done: bool, st: Stage)
    requires Tracks(c, st, t) && t.enumerated && Delivered(t) != Some(ClientTag(c))
    ensures Tracks(c, st, OnAck(t, pushes, done))
  {}

  lemma ExpireTracks(c: nat, t: Tx, id: nat, st: Stage)
    requires Tracks(c, st, t)
    ensures Tracks(c, st, OnExpire(t, id))
  {}

  lemma WriteTracks(c: nat, t: Tx, count: nat, st: Stage)
    requires Sound(t) && Tracks(c, st, t) && t.enumerated
    ensures Tracks(c, st, OnWritable(t, count))
  {
    var t' := OnWritable(t, count);
    WriteShape(t, count);
    hide Sound, OnWritable, Pending, Tagged, WrittenOn;
    if Tagged(c, t') {
      WriteKeepsTagged(c, t, t');
    }
    if st == Exposed {
      WriteKeepsPending(c, t, t');
    }
  }

  lemma SentPending(c: nat, t: Tx, f: TxFrame)
    requires f.tag == ClientTag(c) && 0 <= f.address < 128
    ensures Pending(c, OnPush(t, f, 1))
  {
    var t' := OnPush(t, f, 1);
    assert f in t'.low && Own(c, f);
  }

  lemma OtherTag(c: nat, w: World, h: Happening)
    requires Possible(w, h) && ((h.Sent? && h.client != c) || h.Responded?)
    ensures h.f.tag != ClientTag(c)
  {}

  /** What happens elsewhere leaves the stage right. */
  lemma ElsewhereTracks(c: nat, w: World, h: Happening, st: Stage)
    requires Ready(c, w) && Possible(w, h) && Tracks(c, st, w.tx)
    requires h != PollTimedOut(c) && h != Died(c) && !(h.Sent? && h.client == c)
    requires h.Acked? ==> Delivered(w.tx) != Some(ClientTag(c))
    ensures Tracks(c, st, NextWorld(w, h).tx)
  {
    var t := w.tx;
    NextTxIs(w, h);
    if h.Enumerated? {
      assert false;
    }
    hide Possible, Sound, Tracks, OnPush, OnWritable, OnExpire, OnAck, OnCancel, TagsFine, Delivered, NextWorld,
      WaitsForAnswer;
    if h.Sent? || h.Responded? {
      OtherTag(c, w, h);
      OneMoreQueued(c, t, h.f, if h.Sent? then 1 else 0, st);
    } else if h.Wrote? {
      WriteTracks(c, t, h.count, st);
    } else if h.TimedOut? {
      ExpireTracks(c, t, h.id, st);
    } else if h.Acked? {
      AckTracks(c, t, h.pushes, h.done, st);
    } else if h.PollTimedOut? || h.Died? {
      OthersCancelled(c, h.client, t, st);
    }
  }

  lemma DeliveredTagged(c: nat, t: Tx)
    ensures Delivered(t) == Some(ClientTag(c)) ==> Tagged(c, t)
  {}

  /** Nothing comes in for a client that has sent nothing since its poll expired. */
  lemma StageStep(c: nat, j: Joint, m: Moment, st: Stage)
    requires Ready(c, j.w) && Enabled(c, j, m) && Tracks(c, st, j.w.tx)
    ensures Tracks(c, NextStage(c, st, m), Next(c, j, m).w.tx)
    ensures st == Expired ==> !Arrival(m)
  {
    var w, t := j.w, j.w.tx;
    DeliveredTagged(c, t);
    hide Tagged, Pending, TagsFine, Possible, Orderly, NextWorld, S.Next, S.Enabled, WaitsForAnswer, Blocks, Sound;
    hide Delivered;
    if m.h.Some? {
      var h := m.h.value;
      NextTxIs(w, h);
      hide Step, OnPush, OnCancel;
      if h == PollTimedOut(c) {
        CancelClears(c, t);
        IsCancel(t, c);
      } else if Transmits(c, m) {
        SentIs(w, h);
        SentPending(c, t, h.f);
        IsPush(t, h.f);
      } else if !Arrival(m) {
        ElsewhereTracks(c, w, h, st);
      }
    }
  }

  lemma SentIs(w: World, h: Happening)
    requires Sound(w.tx) && Possible(w, h) && h.Sent?
    ensures h.f.Valid() && h.f.tag == ClientTag(h.client)
  {
    hide Sound;
  }

  lemma IsCancel(t: Tx, c: nat)
    requires Sound(t)
    ensures Step(t, Cancel(ClientTag(c))) == OnCancel(t, ClientTag(c))
  {
    hide OnCancel;
  }

  lemma IsPush(t: Tx, f: TxFrame)
    requires Sound(t) && f.Valid()
    ensures Step(t, Push(f, 1)) == OnPush(t, f, 1)
  {
    hide OnPush;
  }

  // ----- The stage told from what happened -----

  function StageAfter(c: nat, st: Stage, ms: seq<Moment>): Stage
    decreases |ms|
  {
    if ms == [] then st else StageAfter(c, NextStage(c, st, ms[0]), ms[1..])
  }

  lemma {:induction false} StageSnoc(c: nat, st: Stage, ms: seq<Moment>, m: Moment)
    ensures StageAfter(c, st, ms + [m]) == NextStage(c, StageAfter(c, st, ms), m)
    decreases |ms|
  {
    hide NextStage;
    if ms == [] {
      assert [] + [m] == [m] && [m][1..] == [];
    } else {
      assert (ms + [m])[1..] == ms[1..] + [m];
      StageSnoc(c, NextStage(c, st, ms[0]), ms[1..], m);
    }
  }

  predicate Ends(m: Moment) { Expiry(m) || Arrival(m) || Blocks(m) }

  /** A poll for responses expired at i, none has come in since, and the application has not asked to wait again. */
  predicate OpenSince(ms: seq<Moment>, i: nat) {
    i < |ms| && Expiry(ms[i]) && forall n :: i < n < |ms| ==> !Ends(ms[n])
  }

  predicate SentSince(c: nat, ms: seq<Moment>, i: nat) {
    exists k :: i < k < |ms| && Transmits(c, ms[k])
  }

  /** And the application has sent something since. */
  predicate AtRisk(c: nat, ms: seq<Moment>) {
    exists i: nat :: i < |ms| && OpenSince(ms, i) && SentSince(c, ms, i)
  }

  predicate Open(ms: seq<Moment>) {
    exists i: nat :: i < |ms| && OpenSince(ms, i)
  }

  lemma OpenSnoc(c: nat, ms: seq<Moment>, m: Moment, i: nat)
    requires i <= |ms|
    ensures OpenSince(ms + [m], i) <==> if i == |ms| then Expiry(m) else OpenSince(ms, i) && !Ends(m)
    ensures SentSince(c, ms + [m], i) <==> SentSince(c, ms, i) || (i < |ms| && Transmits(c, m))
  {
    hide Ends, Expiry, Transmits;
    var ms' := ms + [m];
    assert forall n :: 0 <= n < |ms| ==> ms'[n] == ms[n];
    assert ms'[|ms|] == m;
    if SentSince(c, ms, i) {
      var k :| i < k < |ms| && Transmits(c, ms[k]);
      assert Transmits(c, ms'[k]);
    }
    if OpenSince(ms', i) && i < |ms| {
      forall n | i < n < |ms| ensures !Ends(ms[n]) {
        assert !Ends(ms'[n]);
      }
    }
  }

  lemma OpenAfter(ms: seq<Moment>, m: Moment)
    ensures Open(ms + [m]) <==> Expiry(m) || (Open(ms) && !Ends(m))
  {
    hide OpenSince, Ends, Expiry;
    OpenSnoc(0, ms, m, |ms|);
    if Open(ms + [m]) {
      var i: nat :| i < |ms + [m]| && OpenSince(ms + [m], i);
      OpenSnoc(0, ms, m, i);
    }
    if Open(ms) && !Ends(m) {
      var i: nat :| i < |ms| && OpenSince(ms, i);
      OpenSnoc(0, ms, m, i);
    }
    if Expiry(m) {
      assert OpenSince(ms + [m], |ms|);
    }
  }

  lemma RiskAfter(c: nat, ms: seq<Moment>, m: Moment)
    ensures AtRisk(c, ms + [m]) <==> !Ends(m) && (AtRisk(c, ms) || (Open(ms) && Transmits(c, m)))
  {
    hide OpenSince, Ends, Expiry, SentSince, Transmits;
    if AtRisk(c, ms + [m]) {
      var i: nat :| i < |ms + [m]| && OpenSince(ms + [m], i) && SentSince(c, ms + [m], i);
      OpenSnoc(c, ms, m, i);
      NothingSent(c, ms, i);
    }
    if !Ends(m) && AtRisk(c, ms) {
      var i: nat :| i < |ms| && OpenSince(ms, i) && SentSince(c, ms, i);
      OpenSnoc(c, ms, m, i);
    }
    if !Ends(m) && Open(ms) && Transmits(c, m) {
      var i: nat :| i < |ms| && OpenSince(ms, i);
      OpenSnoc(c, ms, m, i);
    }
  }

  lemma NothingSent(c: nat, ms: seq<Moment>, i: nat)
    ensures SentSince(c, ms, i) ==> i < |ms|
  {}

  lemma {:induction false} StageIs(c: nat, ms: seq<Moment>)
    ensures StageAfter(c, Closed, ms) != Closed <==> Open(ms)
    ensures StageAfter(c, Closed, ms) == Exposed <==> AtRisk(c, ms)
    decreases |ms|
  {
    hide Open, AtRisk;
    if ms == [] {
      NothingYet(c);
    } else {
      var init, m := ms[..|ms| - 1], ms[|ms| - 1];
      assert init + [m] == ms;
      StageIs(c, init);
      StageSnoc(c, Closed, init, m);
      OpenAfter(init, m);
      RiskAfter(c, init, m);
      hide StageAfter, Expiry, Arrival, Blocks, Transmits;
    }
  }

  lemma NothingYet(c: nat)
    ensures !Open([]) && !AtRisk(c, [])
  {}

  // ----- Runs -----

  lemma {:induction false} LegalAppend(c: nat, j: Joint, ms: seq<Moment>, more: seq<Moment>)
    requires Ready(c, j.w)
    ensures Legal(c, j, ms + more) <==> Legal(c, j, ms) && Legal(c, After(c, j, ms), more)
    ensures Legal(c, j, ms + more) ==> After(c, j, ms + more) == After(c, After(c, j, ms), more)
    decreases |ms|
  {
    hide Enabled, Next, Ready;
    if ms == [] {
      assert [] + more == more;
    } else {
      assert (ms + more)[1..] == ms[1..] + more && (ms + more)[0] == ms[0];
      if Enabled(c, j, ms[0]) {
        ReadyNext(c, j, ms[0]);
        LegalAppend(c, Next(c, j, ms[0]), ms[1..], more);
      }
    }
  }

  lemma {:induction false} RunTracks(c: nat, j: Joint, ms: seq<Moment>, st: Stage)
    requires Ready(c, j.w) && Legal(c, j, ms) && Tracks(c, st, j.w.tx)
    ensures Tracks(c, StageAfter(c, st, ms), After(c, j, ms).w.tx)
    decreases |ms|
  {
    if ms != [] {
      ReadyNext(c, j, ms[0]);
      StageStep(c, j, ms[0], st);
      hide Enabled, Next, Ready, NextStage, Tracks;
      RunTracks(c, Next(c, j, ms[0]), ms[1..], NextStage(c, st, ms[0]));
    }
  }

  /** A late response means that something was sent. */
  lemma ArrivalWhileOpen(c: nat, j: Joint, ms: seq<Moment>, n: nat)
    requires Ready(c, j.w) && Legal(c, j, ms) && n < |ms| && Arrival(ms[n])
    ensures Open(ms[..n]) <==> AtRisk(c, ms[..n])
  {
    var init, m := ms[..n], ms[n];
    StageIs(c, init);
    assert ms == init + ms[n..] && ms[n..] == [m] + ms[n..][1..];
    LegalAppend(c, j, init, ms[n..]);
    RunTracks(c, j, init, Closed);
    assert Enabled(c, After(c, j, init), m);
    StageStep(c, After(c, j, init), m, StageAfter(c, Closed, init));
    hide Legal, After, Enabled, Ready, Tracks, NextStage, Next;
  }

  /** A moment as the queue of responses sees it. */
  function ResponseEvent(m: Moment): Option<D.Event> {
    if m.e.Some? then S.SideEvent(m.e.value, S.Responses) else None
  }

  lemma EventsStep(ms: seq<Moment>)
    requires ms != []
    ensures var de := ResponseEvent(ms[0]);
      S.OfKind(EventsOf(ms), S.Responses)
      == (if de.Some? then [de.value] else []) + S.OfKind(EventsOf(ms[1..]), S.Responses)
  {
    hide S.SideEvent;
    if ms[0].e.Some? {
      assert ([ms[0].e.value] + EventsOf(ms[1..]))[1..] == EventsOf(ms[1..]);
    } else {
      assert [] + EventsOf(ms[1..]) == EventsOf(ms[1..]);
      assert [] + S.OfKind(EventsOf(ms[1..]), S.Responses) == S.OfKind(EventsOf(ms[1..]), S.Responses);
    }
  }

  lemma StaleIsOpen(c: nat, st: Stage, m: Moment)
    ensures match ResponseEvent(m)
      case None => !Arrival(m) && (NextStage(c, st, m) != Closed <==> st != Closed)
      case Some(de) => (de.Push? <==> Arrival(m)) && (NextStage(c, st, m) != Closed <==> D.NextStale(st != Closed, de))
  {}

  predicate LateIn(c: nat, st: Stage, ms: seq<Moment>) {
    exists n: nat :: n < |ms| && Arrival(ms[n]) && StageAfter(c, st, ms[..n]) != Closed
  }

  lemma LateInStep(c: nat, st: Stage, ms: seq<Moment>)
    requires ms != []
    ensures LateIn(c, st, ms) <==> (Arrival(ms[0]) && st != Closed) || LateIn(c, NextStage(c, st, ms[0]), ms[1..])
  {
    hide NextStage, Arrival;
    var t := ms[1..];
    forall n: nat | n < |t| ensures StageAfter(c, NextStage(c, st, ms[0]), t[..n]) == StageAfter(c, st, ms[..n + 1]) {
      assert ms[..n + 1][1..] == t[..n];
    }
    if LateIn(c, st, ms) && !(Arrival(ms[0]) && st != Closed) {
      var n: nat :| n < |ms| && Arrival(ms[n]) && StageAfter(c, st, ms[..n]) != Closed;
      assert n > 0 && Arrival(t[n - 1]);
    }
    if Arrival(ms[0]) && st != Closed {
      assert StageAfter(c, st, ms[..0]) != Closed;
    }
    if LateIn(c, NextStage(c, st, ms[0]), t) {
      var n: nat :| n < |t| && Arrival(t[n]) && StageAfter(c, NextStage(c, st, ms[0]), t[..n]) != Closed;
      assert Arrival(ms[n + 1]) && StageAfter(c, st, ms[..n + 1]) != Closed;
    }
  }

  lemma {:induction false} LateIsOpen(c: nat, st: Stage, ms: seq<Moment>)
    ensures D.Late(st != Closed, S.OfKind(EventsOf(ms), S.Responses)) <==> LateIn(c, st, ms)
    decreases |ms|
  {
    if ms != [] {
      var de, rest := ResponseEvent(ms[0]), S.OfKind(EventsOf(ms[1..]), S.Responses);
      EventsStep(ms);
      LateInStep(c, st, ms);
      StaleIsOpen(c, st, ms[0]);
      LateIsOpen(c, NextStage(c, st, ms[0]), ms[1..]);
      hide NextStage, Arrival, LateIn, ResponseEvent, EventsOf, S.OfKind, D.NextStale;
      if de.Some? {
        assert ([de.value] + rest)[1..] == rest;
      } else {
        assert [] + rest == rest;
      }
    }
  }

  /** In every run of daemon and application, a response is late exactly if it comes in when the application has sent
      something after a poll for responses expired, has got none since and has not asked to wait for one again. */
  lemma LateIffSentSince(c: nat, w: World, ms: seq<Moment>)
    requires Ready(c, w) && Legal(c, Joint(S.START, w), ms)
    ensures D.NoLatePush(S.OfKind(EventsOf(ms), S.Responses))
       <==> forall n: nat :: n < |ms| && Arrival(ms[n]) ==> !AtRisk(c, ms[..n])
  {
    LateIsOpen(c, Closed, ms);
    D.LateIff(false, S.OfKind(EventsOf(ms), S.Responses));
    hide Legal, EventsOf, Ready, Open, AtRisk, Arrival, D.Late, D.NoLatePush, S.OfKind;
    forall n: nat | n < |ms| && Arrival(ms[n])
      ensures StageAfter(c, Closed, ms[..n]) != Closed <==> AtRisk(c, ms[..n])
    {
      StageIs(c, ms[..n]);
      ArrivalWhileOpen(c, Joint(S.START, w), ms, n);
    }
  }

  /** After a poll for responses expired the application sends nothing before it asks to wait for one again. */
  predicate Careful(c: nat, ms: seq<Moment>) {
    forall i, k :: 0 <= i < k < |ms| && Expiry(ms[i]) && Transmits(c, ms[k]) ==> exists n :: i < n < k && Blocks(ms[n])
  }

  lemma RiskNotCareful(c: nat, ms: seq<Moment>, n: nat, i: nat, k: nat)
    requires i < k < n <= |ms| && OpenSince(ms[..n], i) && Transmits(c, ms[k])
    ensures !Careful(c, ms)
  {
    hide Transmits, Blocks, Arrival;
    forall b | i < b < k ensures !Blocks(ms[b]) {
      assert ms[..n][b] == ms[b];
      assert !Ends(ms[..n][b]);
    }
    hide Expiry;
    assert Expiry(ms[..n][i]);
  }

  lemma CarefulNoRisk(c: nat, ms: seq<Moment>, n: nat)
    requires Careful(c, ms) && n <= |ms|
    ensures !AtRisk(c, ms[..n])
  {
    hide Transmits, OpenSince, Careful;
    if AtRisk(c, ms[..n]) {
      var i: nat :| i < |ms[..n]| && OpenSince(ms[..n], i) && SentSince(c, ms[..n], i);
      var k :| i < k < n && Transmits(c, ms[..n][k]);
      RiskNotCareful(c, ms, n, i, k);
    }
  }

  /** For such an application no response is late; each of its calls reads its own answer exactly if no note is late. */
  lemma CarefulIsSafe(c: nat, w: World, ms: seq<Moment>)
    requires Ready(c, w) && Legal(c, Joint(S.START, w), ms) && Careful(c, ms)
    ensures D.NoLatePush(S.OfKind(EventsOf(ms), S.Responses))
    ensures S.Legal(S.START, EventsOf(ms))
    ensures S.AlwaysInStep(S.START, EventsOf(ms)) <==> D.NoLatePush(S.OfKind(EventsOf(ms), S.Notes))
  {
    RunsOfBoth(c, Joint(S.START, w), ms);
    LateIffSentSince(c, w, ms);
    hide Legal, After, EventsOf, Ready, AtRisk, Careful, Arrival, D.NoLatePush, S.OfKind, S.AlwaysInStep, S.Legal;
    forall n: nat | n < |ms| && Arrival(ms[n]) ensures !AtRisk(c, ms[..n]) {
      CarefulNoRisk(c, ms, n);
    }
    S.EachCallReadsItsOwn(EventsOf(ms));
  }

  // ----- A response can always come late if something was sent -----

  /** Nothing of the application's doing or of its timers', only frames that come in. */
  predicate OnlyBus(c: nat, ms: seq<Moment>) {
    forall n :: 0 <= n < |ms| ==> !Transmits(c, ms[n]) && (ms[n].e.Some? ==> ms[n].e.value.Arrives?)
  }

  /** How much there is to write and to wait for. */
  function Work(t: Tx): nat {
    3 * (|t.high| + |t.low|) + if t.frame.None? then 0 else if AwaitingAck(t) then 1 else 2
  }

  /** A write that takes all there is to write. */
  lemma WrittenWhole(t: Tx)
    requires t.frame.Some? && t.pos <= |t.wire| <= 200
    ensures var t' := Written(t, 200);
      && t'.high == t.high && t'.low == t.low && (t'.frame.None? || AwaitingAck(t'))
  {}

  lemma WriteWorks(t: Tx)
    requires Sound(t) && t.enumerated && !AwaitingAck(t) && (t.frame.Some? || Eligible(t))
    ensures t.watch && Work(OnWritable(t, 200)) < Work(t)
  {
    WholeFits(t);
    hide AllFramesValid, Encode, OneTimer, Written;
    WrittenWhole(if t.frame.Some? then t else NextTx(t));
  }

  lemma WholeFits(t: Tx)
    requires Sound(t)
    ensures t.frame.Some? ==> |t.wire| <= 200
    ensures t.frame.None? && t.high != [] ==> t.high[0] in t.high && |Encode(t.high[0].ToMessage())| <= 200
    ensures t.frame.None? && t.low != [] ==> t.low[0] in t.low && |Encode(t.low[0].ToMessage())| <= 200
  {
    if t.frame.Some? {
      EncodeFits(t.frame.value.ToMessage());
    } else {
      if t.high != [] {
        assert t.high[0] in t.high;
        EncodeFits(t.high[0].ToMessage());
      }
      if t.low != [] {
        assert t.low[0] in t.low;
        EncodeFits(t.low[0].ToMessage());
      }
    }
  }

  /** The next thing to happen to the transmitter: a write, or the ack that is waited for. */
  function Onward(t: Tx): Happening { if AwaitingAck(t) then Acked([], false) else Wrote(200) }

  lemma OnwardWorks(c: nat, w: World)
    requires Ready(c, w) && Pending(c, w.tx)
    ensures Possible(w, Onward(w.tx)) && Orderly(w, Onward(w.tx))
    ensures Work(NextWorld(w, Onward(w.tx)).tx) < Work(w.tx)
  {
    var t := w.tx;
    if AwaitingAck(t) {
      hide TagsFine, Sound;
    } else {
      PendingSubject(c, t);
      WriteWorks(t);
      hide TagsFine, Sound, Work, Pending;
      assert Possible(w, Wrote(200));
      NextTxIs(w, Wrote(200));
      hide NextWorld, OnWritable;
      IsWrite(t, 200);
    }
  }

  lemma PendingSubject(c: nat, t: Tx)
    requires Pending(c, t) && t.enumerated
    ensures t.frame.Some? || Eligible(t)
  {}

  lemma IsWrite(t: Tx, count: nat)
    requires Sound(t) && t.watch
    ensures Step(t, Writable(count)) == OnWritable(t, count)
  {
    hide OnWritable;
  }

  lemma LegalCons(c: nat, j: Joint, m: Moment, more: seq<Moment>)
    requires Ready(c, j.w) && Enabled(c, j, m)
    requires Ready(c, Next(c, j, m).w) && Legal(c, Next(c, j, m), more)
    ensures Legal(c, j, [m] + more)
    ensures EventsOf([m] + more) == EventOf(m) + EventsOf(more)
  {
    hide Enabled, Next, Ready;
    assert ([m] + more)[1..] == more;
  }

  /** These moments end with the response f, and nothing but the transmitter acts in them before. */
  predicate Brings(c: nat, j: Joint, more: seq<Moment>, f: D.RxFrame)
    requires Ready(c, j.w)
  {
    && Legal(c, j, more) && more != [] && Arrival(more[|more| - 1])
    && OnlyBus(c, more) && EventsOf(more) == [S.Arrives(S.Responses, f)]
    && forall n :: 0 <= n < |more| - 1 ==> !Arrival(more[n])
  }

  lemma BringsNow(c: nat, j: Joint, m: Moment, f: D.RxFrame)
    requires Ready(c, j.w) && Enabled(c, j, m) && m.e == Some(S.Arrives(S.Responses, f))
    requires m.h.Some? && m.h.value.Acked?
    ensures Brings(c, j, [m], f)
  {
    ReadyNext(c, j, m);
    hide Enabled, Ready, Next;
    LegalCons(c, j, m, []);
    assert [m] + [] == [m];
  }

  lemma BringsLater(c: nat, j: Joint, m: Moment, rest: seq<Moment>, f: D.RxFrame)
    requires Ready(c, j.w) && Enabled(c, j, m) && m.e == None && !Transmits(c, m)
    requires Ready(c, Next(c, j, m).w) && Brings(c, Next(c, j, m), rest, f)
    ensures Brings(c, j, [m] + rest, f)
  {
    hide Enabled, Ready, Next, Legal, Transmits;
    LegalCons(c, j, m, rest);
    assert [] + EventsOf(rest) == EventsOf(rest);
  }

  /** What is next to happen is a moment of its own, unless it is the ack for the client. */
  lemma OnwardEnabled(c: nat, j: Joint, f: D.RxFrame)
    requires Ready(c, j.w) && f.Valid() && Possible(j.w, Onward(j.w.tx)) && Orderly(j.w, Onward(j.w.tx))
    ensures var h := Onward(j.w.tx);
      if h.Acked? && Delivered(j.w.tx) == Some(ClientTag(c))
      then Enabled(c, j, Moment(Some(S.Arrives(S.Responses, f)), Some(h)))
      else Enabled(c, j, Moment(None, Some(h)))
  {
    hide Possible, Orderly, NextWorld, TagsFine, Sound, Delivered, WaitsForAnswer;
  }

  /** Writes and acks that bring the response to something the client sent. */
  lemma ResponseComes(c: nat, j: Joint, f: D.RxFrame) returns (more: seq<Moment>)
    requires Ready(c, j.w) && Pending(c, j.w.tx) && f.Valid()
    ensures Brings(c, j, more, f)
    decreases Work(j.w.tx)
  {
    var w, h := j.w, Onward(j.w.tx);
    OnwardWorks(c, w);
    OnwardEnabled(c, j, f);
    hide Possible, Orderly, NextWorld, Ready, Pending, Delivered, Enabled, S.Next, Work, Brings;
    if h.Acked? && Delivered(w.tx) == Some(ClientTag(c)) {
      more := [Moment(Some(S.Arrives(S.Responses, f)), Some(h))];
      BringsNow(c, j, more[0], f);
    } else {
      var m := Moment(None, Some(h));
      ReadyNext(c, j, m);
      OnwardPends(c, j, m);
      var rest := ResponseComes(c, Next(c, j, m), f);
      BringsLater(c, j, m, rest, f);
      more := [m] + rest;
    }
  }

  lemma OnwardPends(c: nat, j: Joint, m: Moment)
    requires Ready(c, j.w) && Enabled(c, j, m) && Pending(c, j.w.tx) && m.e == None
    ensures Pending(c, Next(c, j, m).w.tx)
  {
    StageStep(c, j, m, Exposed);
    hide Ready, Enabled, Next, Pending;
  }

  /** The last moment brings a response that is late. */
  predicate ComesLate(ms: seq<Moment>) {
    ms != [] && Arrival(ms[|ms| - 1]) && Open(ms[..|ms| - 1])
  }

  lemma OpenStays(c: nat, ms: seq<Moment>, more: seq<Moment>)
    requires Open(ms) && OnlyBus(c, more) && forall n :: 0 <= n < |more| ==> !Arrival(more[n])
    ensures Open(ms + more)
  {
    var i: nat :| i < |ms| && OpenSince(ms, i);
    var all := ms + more;
    forall n | i < n < |all| ensures !Ends(all[n]) {
      if n < |ms| {
        assert all[n] == ms[n];
      } else {
        assert all[n] == more[n - |ms|];
      }
    }
    hide Ends, Expiry;
    assert all[i] == ms[i];
    assert OpenSince(all, i);
  }

  lemma RiskBefore(c: nat, ms: seq<Moment>, more: seq<Moment>)
    requires AtRisk(c, ms + more) && OnlyBus(c, more)
    ensures AtRisk(c, ms)
  {
    var all := ms + more;
    var i: nat :| i < |all| && OpenSince(all, i) && SentSince(c, all, i);
    var k :| i < k < |all| && Transmits(c, all[k]);
    assert k < |ms|;
    hide Expiry, Transmits, Ends;
    assert all[i] == ms[i] && all[k] == ms[k];
    forall n | i < n < |ms| ensures !Ends(ms[n]) {
      assert all[n] == ms[n];
    }
    assert OpenSince(ms, i) && SentSince(c, ms, i);
  }

  /** However a run has gone so far, the bus can still bring a response that is late exactly if the application has sent
      something after a poll for responses expired, has got none since and has not asked to wait for one again. */
  lemma ResponseCanBeLateIff(c: nat, w: World, ms: seq<Moment>)
    requires Ready(c, w) && Legal(c, Joint(S.START, w), ms)
    ensures AtRisk(c, ms)
       <==> exists more :: OnlyBus(c, more) && Legal(c, Joint(S.START, w), ms + more) && more != []
                           && ComesLate(ms + more)
  {
    hide Ready, Legal, AtRisk, Open, Arrival;
    if AtRisk(c, ms) {
      var more := LateOne(c, Joint(S.START, w), ms);
    }
    forall more | OnlyBus(c, more) && Legal(c, Joint(S.START, w), ms + more) && more != [] && ComesLate(ms + more)
      ensures AtRisk(c, ms)
    {
      NotWithoutRisk(c, Joint(S.START, w), ms, more);
    }
  }

  lemma NotWithoutRisk(c: nat, j: Joint, ms: seq<Moment>, more: seq<Moment>)
    requires Ready(c, j.w) && OnlyBus(c, more) && Legal(c, j, ms + more) && more != [] && ComesLate(ms + more)
    ensures AtRisk(c, ms)
  {
    hide Ready, Legal, AtRisk, Open, Arrival, Transmits;
    var all, last := ms + more, |ms + more| - 1;
    ArrivalWhileOpen(c, j, all, last);
    assert all[..last] == ms + more[..|more| - 1];
    RiskBefore(c, ms, more[..|more| - 1]);
  }

  lemma LateOne(c: nat, j: Joint, ms: seq<Moment>) returns (more: seq<Moment>)
    requires Ready(c, j.w) && Legal(c, j, ms) && AtRisk(c, ms)
    ensures OnlyBus(c, more) && Legal(c, j, ms + more) && more != [] && ComesLate(ms + more)
  {
    hide Ready, Legal, After, AtRisk, Open, Arrival, Transmits, Pending, Tagged, OnlyBus;
    StageIs(c, ms);
    RunTracks(c, j, ms, Closed);
    more := ResponseComes(c, After(c, j, ms), D.RxFrame(0, 0, 0, []));
    LegalAppend(c, j, ms, more);
    var front := more[..|more| - 1];
    FrontOnlyBus(c, more);
    OpenStays(c, ms, front);
    assert (ms + more)[..|ms + more| - 1] == ms + front;
  }

  lemma FrontOnlyBus(c: nat, more: seq<Moment>)
    requires OnlyBus(c, more) && more != []
    ensures OnlyBus(c, more[..|more| - 1])
  {
    hide Transmits;
  }

  // ----- A refused command that is taken to have succeeded -----

  lemma {:induction false} SessionAppend(s: S.Session, es: seq<S.Event>, more: seq<S.Event>)
    ensures S.Legal(s, es + more) <==> S.Legal(s, es) && S.Legal(S.After(s, es), more)
    ensures S.Legal(s, es + more) ==> S.After(s, es + more) == S.After(S.After(s, es), more)
    decreases |es|
  {
    hide S.Enabled, S.Next;
    if es == [] {
      assert [] + more == more;
    } else {
      assert (es + more)[1..] == es[1..] + more && (es + more)[0] == es[0];
      if S.Enabled(s, es[0]) {
        SessionAppend(S.Next(s, es[0]), es[1..], more);
      }
    }
  }

  lemma {:induction false} EventsAppend(ms: seq<Moment>, more: seq<Moment>)
    ensures EventsOf(ms + more) == EventsOf(ms) + EventsOf(more)
    decreases |ms|
  {
    if ms == [] {
      assert [] + more == more && [] + EventsOf(more) == EventsOf(more);
    } else {
      hide EventOf;
      assert (ms + more)[1..] == ms[1..] + more && (ms + more)[0] == ms[0];
      EventsAppend(ms[1..], more);
      ConcatAssoc(EventOf(ms[0]), EventsOf(ms[1..]), EventsOf(more));
    }
  }

  /** An event of the application or its timers, with what it does to the transmitter. */
  function Alone(c: nat, e: S.Event): Moment {
    Moment(Some(e), if e.Expires? && e.kind == S.Responses then Some(PollTimedOut(c)) else None)
  }

  lemma AloneEnabled(c: nat, j: Joint, e: S.Event)
    requires Ready(c, j.w) && S.Enabled(j.s, e) && !(e.Arrives? && e.kind == S.Responses)
    ensures Enabled(c, j, Alone(c, e)) && Next(c, j, Alone(c, e)).s == S.Next(j.s, e)
    ensures e.Ask? || e.Reads? ==> Next(c, j, Alone(c, e)).w == j.w
  {
    hide S.Enabled, S.Next, NextWorld, Sound, TagsFine, WaitsForAnswer;
  }

  /** What an application does can be done whatever the transmitter is doing. */
  lemma Follow(c: nat, j: Joint, es: seq<S.Event>) returns (ms: seq<Moment>)
    requires Ready(c, j.w) && S.Legal(j.s, es) && forall e :: e in es ==> !(e.Arrives? && e.kind == S.Responses)
    ensures Legal(c, j, ms) && EventsOf(ms) == es && After(c, j, ms).s == S.After(j.s, es)
    ensures (forall e :: e in es ==> e.Ask? || e.Reads?) ==> After(c, j, ms).w == j.w
    decreases |es|
  {
    if es == [] {
      return [];
    }
    var m := Alone(c, es[0]);
    AloneEnabled(c, j, es[0]);
    ReadyNext(c, j, m);
    hide S.Enabled, S.Next, Enabled, Next, Ready;
    var rest := Follow(c, Next(c, j, m), es[1..]);
    LegalCons(c, j, m, rest);
    ms := [m] + rest;
    assert ms[1..] == rest;
  }

  /** The application sends a frame. */
  lemma Sending(c: nat, j: Joint) returns (m: Moment)
    requires Ready(c, j.w) && S.Enabled(j.s, S.Ask(S.Command(E_SUCCESS)))
    ensures Enabled(c, j, m) && m.e == Some(S.Ask(S.Command(E_SUCCESS)))
    ensures Pending(c, Next(c, j, m).w.tx)
    ensures Next(c, j, m).s == S.Next(j.s, S.Ask(S.Command(E_SUCCESS)))
  {
    var f := TxFrame(j.w.nextId, FRAME_SRIC, 2, ClientTag(c), []);
    m := Moment(Some(S.Ask(S.Command(E_SUCCESS))), Some(Sent(c, f)));
    NextTxIs(j.w, Sent(c, f));
    hide S.Enabled, S.Next, NextWorld, TagsFine, WaitsForAnswer, Pending, OnPush;
    IsPush(j.w.tx, f);
    SentPending(c, j.w.tx, f);
    hide Sound;
  }

  /** This can happen to any client of the daemon, in any state of the bus. */
  lemma RefusalHappens(c: nat, w: World, f: D.RxFrame)
    requires Ready(c, w) && f.Valid()
    ensures exists ms :: Legal(c, Joint(S.START, w), ms) && EventsOf(ms) == S.RefusalRun(f)
  {
    var j := Joint(S.START, w);
    var e0, e1, e2, e3 := S.ExpiredPoll(S.Responses), S.Ask(S.Command(E_SUCCESS)), S.Arrives(S.Responses, f),
      [S.Ask(S.Command(E_BADADDR)), S.Reads];
    S.RefusalOverlooked(f);
    assert S.RefusalRun(f) == e0 + ([e1] + ([S.Reads] + ([e2] + e3)));
    SessionAppend(S.START, e0, [e1] + ([S.Reads] + ([e2] + e3)));
    hide Ready, Legal, After, Enabled, Next, S.Legal, S.After, S.Next, S.Enabled, EventsOf, S.RefusalRun, Pending;
    assert forall e :: e in e0 ==> !e.Arrives?;
    var ms0 := Follow(c, j, e0);
    var rest := RefusedAfter(c, After(c, j, ms0), e1, e2, e3);
    LegalAppend(c, j, ms0, rest);
    EventsAppend(ms0, rest);
  }

  lemma RefusedAfter(c: nat, j: Joint, e1: S.Event, e2: S.Event, e3: seq<S.Event>) returns (ms: seq<Moment>)
    requires Ready(c, j.w) && e1 == S.Ask(S.Command(E_SUCCESS)) && e2.Arrives? && e2.kind == S.Responses && e2.f.Valid()
    requires e3 == [S.Ask(S.Command(E_BADADDR)), S.Reads]
    requires S.Legal(j.s, [e1] + ([S.Reads] + ([e2] + e3)))
    ensures Legal(c, j, ms) && EventsOf(ms) == [e1] + ([S.Reads] + ([e2] + e3))
  {
    var r := [S.Reads] + ([e2] + e3);
    assert ([e1] + r)[0] == e1 && ([e1] + r)[1..] == r;
    var m := Sending(c, j);
    ReadyNext(c, j, m);
    var j1 := Next(c, j, m);
    SessionAppend(j1.s, [S.Reads], [e2] + e3);
    hide Ready, Legal, After, Enabled, Next, S.Legal, S.After, S.Next, S.Enabled, EventsOf, Pending;
    var ms1 := Follow(c, j1, [S.Reads]);
    var j2 := After(c, j1, ms1);
    SessionAppend(j2.s, [e2], e3);
    var ms2 := ResponseComes(c, j2, e2.f);
    RunsOfBoth(c, j2, ms2);
    var ms3 := Follow(c, After(c, j2, ms2), e3);
    LegalAppend(c, j2, ms2, ms3);
    EventsAppend(ms2, ms3);
    LegalAppend(c, j1, ms1, ms2 + ms3);
    EventsAppend(ms1, ms2 + ms3);
    LegalCons(c, j, m, ms1 + (ms2 + ms3));
    ms := [m] + (ms1 + (ms2 + ms3));
  }
}
