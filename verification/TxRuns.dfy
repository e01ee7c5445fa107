/** Whole runs of the transmitter with its clients: what becomes of every frame pushed,
    in which order frames reach the wire, and who gets the responses. */
module TxRuns {
  import opened Bytes
  import opened Encoding
  import opened OutputQueue
  import opened TxModel

  /** What happened so far. `started*` lists the frames of one priority in the order they were first
      put on the wire; a frame is retired when nothing more will be done with it, and dropped when a
      cancellation takes it off its queue. `writes` counts write calls, `finished` complete writes. `out` is
      all that has left by the port, `base` how much of it had when the frame in flight was last begun. */
  datatype Log = Log(pushedHigh: seq<TxFrame>, pushedLow: seq<TxFrame>,
                     startedHigh: seq<TxFrame>, startedLow: seq<TxFrame>,
                     dropped: seq<TxFrame>, retired: seq<TxFrame>,
                     writes: seq<TxFrame>, finished: seq<TxFrame>,
                     out: seq<byte>, base: nat)

  datatype World = World(tx: Tx, live: set<nat>, known: set<nat>, nextId: nat, log: Log)

  const GENESIS := World(START, {}, {}, 0,
                         Log([], [], [], [], [], [], [], [], [], 0))

  datatype Happening =
    | Sent(client: nat, f: TxFrame)              // a client's SRICD_TX
    | Responded(f: TxFrame)                      // the ack queued for a received note
    | Enumerated(f: TxFrame)                     // a frame pushed by the enumeration code's timers
    | Wrote(count: nat)
    | TimedOut(id: nat)
    | Acked(pushes: seq<TxFrame>, done: bool)
    | Connected(client: nat)
    | PollTimedOut(client: nat)
    | Died(client: nat)

  function ToEvent(h: Happening): Option<Event> {
    match h
    case Sent(c, f) => Some(Push(f, 1))
    case Responded(f) => Some(Push(f, 0))
    case Enumerated(f) => Some(Push(f, 0))
    case Wrote(count) => Some(Writable(count))
    case TimedOut(id) => Some(Expire(id))
    case Acked(pushes, done) => Some(Ack(pushes, done))
    case Connected(_) => None
    case PollTimedOut(c) => Some(Cancel(ClientTag(c)))
    case Died(c) => Some(Cancel(ClientTag(c)))
  }

  predicate FreshIds(fs: seq<TxFrame>, n: nat) {
    forall i :: 0 <= i < |fs| ==> fs[i].id == n + i
  }

  predicate FromEnumeration(f: TxFrame) { f.tag == EnumTag || f.tag == NoTag }

  /** What can happen next. Clients are served only once the bus is enumerated; a heap address
      is never handed out twice. */
  predicate Possible(w: World, h: Happening) {
    && (ToEvent(h).Some? ==> Enabled(w.tx, ToEvent(h).value))
    && match h
       case Sent(c, f) => c in w.live && f.tag == ClientTag(c) && f.id == w.nextId
       case Responded(f) => f.tag == NoTag && f.id == w.nextId
       case Enumerated(f) => !w.tx.enumerated && FromEnumeration(f) && f.id == w.nextId
       case Wrote(_) => true
       case TimedOut(_) => true
       case Acked(pushes, done) => FreshIds(pushes, w.nextId) && forall f :: f in pushes ==> FromEnumeration(f)
       case Connected(c) => w.tx.enumerated && c !in w.known
       case PollTimedOut(c) => c in w.live
       case Died(c) => c in w.live
  }

  function AddIf(q: seq<TxFrame>, yes: bool, f: Option<TxFrame>): seq<TxFrame> {
    if yes && f.Some? then q + [f.value] else q
  }

  /** The frame that a write callback works on. */
  function Subject(t: Tx): Option<TxFrame> {
    if AwaitingAck(t) then None
    else if t.frame.Some? then t.frame
    else if t.high != [] then Some(t.high[0])
    else if t.enumerated && t.low != [] then Some(t.low[0])
    else None
  }

  function Removed(q: seq<TxFrame>, tag: Tag): seq<TxFrame> {
    if q == [] then [] else (if q[0].tag == tag then [q[0]] else []) + Removed(q[1..], tag)
  }

  function NextLog(t: Tx, t': Tx, log: Log, h: Happening): Log
    requires WellFormed(t) && t.pos <= |t.wire|
  {
    match h
    case Sent(_, f) => log.(pushedLow := log.pushedLow + [f])
    case Responded(f) => log.(pushedHigh := log.pushedHigh + [f])
    case Enumerated(f) => log.(pushedHigh := log.pushedHigh + [f])
    case Wrote(count) =>
      var s := Subject(t);
      log.(out := log.out + GoneOnWritable(t, count),
           base := if t.frame.None? then |log.out| else log.base,
           startedHigh := if t.frame.None? && t.high != [] then log.startedHigh + [t.high[0]] else log.startedHigh,
           startedLow := if t.frame.None? && t.high == []
             && s.Some? then log.startedLow + [s.value] else log.startedLow,
           writes := AddIf(log.writes, true, s),
           finished := AddIf(log.finished, t'.frame.None? || t'.pos == |t'.wire|, s),
           retired := AddIf(log.retired, t'.frame.None?, s))
    case TimedOut(_) => log.(retired := AddIf(log.retired, t.cancelled, t.frame), base := |log.out|)
    case Acked(pushes, _) =>
      log.(retired := AddIf(log.retired, true, t.frame),
           pushedHigh := if t.frame.Some? && !t.cancelled
             && !t.enumerated then log.pushedHigh + pushes else log.pushedHigh)
    case Connected(_) => log
    case PollTimedOut(c) =>
      log.(dropped := log.dropped + (Removed(t.high, ClientTag(c)) + Removed(t.low, ClientTag(c))))
    case Died(c) =>
      log.(dropped := log.dropped + (Removed(t.high, ClientTag(c)) + Removed(t.low, ClientTag(c))))
  }

  function NextWorld(w: World, h: Happening): World
    requires Sound(w.tx) && Possible(w, h)
  {
    var t' := if ToEvent(h).Some? then Step(w.tx, ToEvent(h).value) else w.tx;
    World(t',
          (match h case Connected(c) => w.live + {c} case Died(c) => w.live - {c} case _ => w.live),
          (match h case Connected(c) => w.known + {c} case _ => w.known),
          (match h
           case Sent(_, _) => w.nextId + 1
           case Responded(_) => w.nextId + 1
           case Enumerated(_) => w.nextId + 1
           case Acked(pushes, _) => w.nextId + |pushes|
           case _ => w.nextId),
          NextLog(w.tx, t', w.log, h))
  }

  lemma NextSound(w: World, h: Happening)
    requires Sound(w.tx) && Possible(w, h)
    ensures Sound(NextWorld(w, h).tx)
  {
    hide Sound, Step, NextLog, Enabled;
    if ToEvent(h).Some? {
      StepSound(w.tx, ToEvent(h).value);
    }
  }

  // ----- Conservation: every pushed frame is in exactly one place -----

  function Count(q: seq<TxFrame>, f: TxFrame): nat {
    if q == [] then 0 else (if q[0] == f then 1 else 0) + Count(q[1..], f)
  }

  function CountOne(o: Option<TxFrame>, f: TxFrame): nat {
    if o == Some(f) then 1 else 0
  }

  lemma {:induction false} CountAppend(x: seq<TxFrame>, y: seq<TxFrame>, f: TxFrame)
    ensures Count(x + y, f) == Count(x, f) + Count(y, f)
    decreases |x|
  {
    if x == [] {
      assert x + y == y;
    } else {
      assert (x + y)[1..] == x[1..] + y;
      CountAppend(x[1..], y, f);
    }
  }

  lemma CountSnoc(q: seq<TxFrame>, g: TxFrame, f: TxFrame)
    ensures Count(q + [g], f) == Count(q, f) + (if g == f then 1 else 0)
  {
    CountAppend(q, [g], f);
    assert [g][1..] == [];
  }

  lemma CountAddIf(q: seq<TxFrame>, yes: bool, o: Option<TxFrame>, f: TxFrame)
    ensures Count(AddIf(q, yes, o), f) == Count(q, f) + (if yes then CountOne(o, f) else 0)
  {
    if o.Some? {
      CountSnoc(q, o.value, f);
    }
  }

  lemma {:induction false} CountIn(q: seq<TxFrame>, f: TxFrame)
    ensures Count(q, f) > 0 <==> f in q
  {
    if q != [] {
      CountIn(q[1..], f);
      HeadTail(q);
    }
  }

  lemma {:induction false} CountByTag(q: seq<TxFrame>, tag: Tag, f: TxFrame)
    ensures Count(q, f) == Count(Without(q, tag), f) + Count(Removed(q, tag), f)
  {
    if q != [] {
      CountByTag(q[1..], tag, f);
      CountAppend([q[0]], Without(q[1..], tag), f);
      CountAppend([q[0]], Removed(q[1..], tag), f);
      assert [] + Without(q[1..], tag) == Without(q[1..], tag);
      assert [] + Removed(q[1..], tag) == Removed(q[1..], tag);
      assert [q[0]][1..] == [];
    }
  }

  function Pushed(w: World, f: TxFrame): nat {
    Count(w.log.pushedHigh, f) + Count(w.log.pushedLow, f)
  }

  function Queued(t: Tx, f: TxFrame): nat {
    Count(t.high, f) + Count(t.low, f)
  }

  function Started(w: World, f: TxFrame): nat {
    Count(w.log.startedHigh, f) + Count(w.log.startedLow, f)
  }

  /** f was pushed as often as it is now queued, in flight, retired or dropped;
      and it was started as often as it is in flight or retired. */
  predicate ConservedAt(w: World, f: TxFrame) {
    && Pushed(w, f) == Queued(w.tx, f) + CountOne(w.tx.frame, f) + Count(w.log.retired, f) + Count(w.log.dropped, f)
    && Started(w, f) == CountOne(w.tx.frame, f) + Count(w.log.retired, f)
  }

  lemma ConservedPush(w: World, h: Happening, f: TxFrame)
    requires Sound(w.tx) && Possible(w, h) && ConservedAt(w, f)
    requires h.Sent? || h.Responded? || h.Enumerated?
    ensures ConservedAt(NextWorld(w, h), f)
  {
    hide Sound, WellFormed, Enabled, Count;
    CountSnoc(w.log.pushedLow, h.f, f);
    CountSnoc(w.tx.low, h.f, f);
    CountSnoc(w.log.pushedHigh, h.f, f);
    CountSnoc(w.tx.high, h.f, f);
  }

  lemma CancelChanges(w: World, h: Happening)
    requires Sound(w.tx) && Possible(w, h)
    requires h.PollTimedOut? || h.Died?
    ensures var tag := ClientTag(h.client);
      var w' := NextWorld(w, h);
      && w'.tx == OnCancel(w.tx, tag)
      && w'.log == w.log.(dropped := w.log.dropped + (Removed(w.tx.high, tag) + Removed(w.tx.low, tag)))
  {
    hide Sound, WellFormed, Enabled, Without, Removed, OnCancel;
  }

  lemma ConservedCancel(w: World, h: Happening, f: TxFrame)
    requires Sound(w.tx) && Possible(w, h) && ConservedAt(w, f)
    requires h.PollTimedOut? || h.Died?
    ensures ConservedAt(NextWorld(w, h), f)
  {
    var t, log, tag := w.tx, w.log, ClientTag(h.client);
    CancelChanges(w, h);
    hide Sound, WellFormed, Enabled, Without, Removed, Count, NextWorld, Possible;
    CountByTag(t.high, tag, f);
    CountByTag(t.low, tag, f);
    CountAppend(Removed(t.high, tag), Removed(t.low, tag), f);
    CountAppend(log.dropped, Removed(t.high, tag) + Removed(t.low, tag), f);
  }

  lemma TimeoutChanges(w: World, h: Happening)
    requires Sound(w.tx) && Possible(w, h) && h.TimedOut?
    ensures w.tx.frame.Some? && AwaitingAck(w.tx)
    ensures var w' := NextWorld(w, h);
      && w'.tx == OnExpire(w.tx, h.id)
      && w'.log == w.log.(retired := AddIf(w.log.retired, w.tx.cancelled, w.tx.frame), base := |w.log.out|)
  {
    hide WellFormed, WireIsFrame, Watched;
  }

  lemma ConservedTimeout(w: World, h: Happening, f: TxFrame)
    requires Sound(w.tx) && Possible(w, h) && ConservedAt(w, f) && h.TimedOut?
    ensures ConservedAt(NextWorld(w, h), f)
  {
    TimeoutChanges(w, h);
    hide Sound, Possible, NextWorld, Count, AddIf;
    CountAddIf(w.log.retired, w.tx.cancelled, w.tx.frame, f);
  }

  lemma ConservedAck(w: World, h: Happening, f: TxFrame)
    requires Sound(w.tx) && Possible(w, h) && ConservedAt(w, f) && h.Acked?
    ensures ConservedAt(NextWorld(w, h), f)
  {
    hide Sound, WellFormed, Enabled, Count, AddIf;
    CountAddIf(w.log.retired, true, w.tx.frame, f);
    CountAppend(w.tx.high, h.pushes, f);
    CountAppend(w.log.pushedHigh, h.pushes, f);
  }

  /** A write callback either does nothing to the frames, goes on with the one in flight,
      or starts the oldest one of the highest eligible priority. */
  lemma WriteChanges(w: World, h: Happening)
    requires Sound(w.tx) && Possible(w, h) && h.Wrote?
    ensures var t, t', s := w.tx, NextWorld(w, h).tx, Subject(w.tx);
      && NextWorld(w, h).log == NextLog(t, t', w.log, h)
      && (s.None? ==> t' == t.(watch := false))
      && (s.Some? ==> t'.frame == s || t'.frame == None)
      && t'.high == (if t.frame.None? && t.high != [] then t.high[1..] else t.high)
      && t'.low == (if t.frame.None? && t.high == [] && s.Some? then t.low[1..] else t.low)
      && (t.frame.None? && s.Some? ==> s == Some(if t.high != [] then t.high[0] else t.low[0]))
  {
    hide AllFramesValid, Encode, NextLog, Watched, OneTimer;
  }

  lemma ConservedWrite(w: World, h: Happening, f: TxFrame)
    requires Sound(w.tx) && Possible(w, h) && ConservedAt(w, f) && h.Wrote?
    ensures ConservedAt(NextWorld(w, h), f)
  {
    var t, log, w' := w.tx, w.log, NextWorld(w, h);
    WriteChanges(w, h);
    if t.frame.None? && Subject(t).Some? {
      WriteStarts(w, h, f);
    }
    hide Sound, Possible, NextWorld, Count, AddIf, Removed;
    CountAddIf(log.retired, w'.tx.frame.None?, Subject(t), f);
  }

  /** What counts of queued and started frames a write changes when it starts one. */
  lemma WriteStarts(w: World, h: Happening, f: TxFrame)
    requires Sound(w.tx) && Possible(w, h) && h.Wrote? && w.tx.frame.None? && Subject(w.tx).Some?
    ensures var w', one := NextWorld(w, h), CountOne(Subject(w.tx), f);
      && Queued(w.tx, f) == one + Queued(w'.tx, f)
      && Started(w', f) == Started(w, f) + one
  {
    WriteChanges(w, h);
    hide Sound, Possible, NextWorld, AddIf, Removed, Count, ToEvent;
    if w.tx.high != [] {
      CountFront(w.tx.high, f);
      CountSnoc(w.log.startedHigh, w.tx.high[0], f);
    } else {
      CountFront(w.tx.low, f);
      CountSnoc(w.log.startedLow, w.tx.low[0], f);
    }
  }

  lemma CountFront(q: seq<TxFrame>, f: TxFrame)
    requires q != []
    ensures Count(q, f) == (if q[0] == f then 1 else 0) + Count(q[1..], f)
  {}

  // ----- Identity -----

  ghost predicate Conserved(w: World) {
    forall f :: ConservedAt(w, f)
  }

  /** No two pushes ever made the same entry, and no two entries share an address. */
  ghost predicate Distinct(w: World) {
    && (forall f :: Pushed(w, f) > 0 ==> Pushed(w, f) == 1 && f.id < w.nextId)
    && (forall f, g :: Pushed(w, f) > 0 && Pushed(w, g) > 0 && f.id == g.id ==> f == g)
  }

  lemma {:induction false} CountFresh(fs: seq<TxFrame>, n: nat, f: TxFrame)
    requires FreshIds(fs, n)
    ensures Count(fs, f) <= 1 && (Count(fs, f) > 0 ==> n <= f.id < n + |fs| && fs[f.id - n] == f)
    decreases |fs|
  {
    if fs != [] {
      CountFresh(fs[1..], n + 1, f);
    }
  }

  /** The frames that a happening pushes. */
  function Pushes(w: World, h: Happening): seq<TxFrame> {
    match h
    case Sent(_, f) => [f]
    case Responded(f) => [f]
    case Enumerated(f) => [f]
    case Acked(pushes, _) => if w.tx.frame.Some? && !w.tx.cancelled && !w.tx.enumerated then pushes else []
    case _ => []
  }

  lemma PushChanges(w: World, h: Happening)
    requires Sound(w.tx) && Possible(w, h)
    ensures var w', ps := NextWorld(w, h), Pushes(w, h);
      && FreshIds(ps, w.nextId) && w.nextId + |ps| <= w'.nextId
      && w'.log.pushedHigh == (if h.Sent? then w.log.pushedHigh else w.log.pushedHigh + ps)
      && w'.log.pushedLow == (if h.Sent? then w.log.pushedLow + ps else w.log.pushedLow)
  {
    hide Sound, WellFormed, Enabled, Step;
    assert w.log.pushedHigh + [] == w.log.pushedHigh;
  }

  lemma PushedGrows(w: World, h: Happening, f: TxFrame)
    requires Sound(w.tx) && Possible(w, h)
    ensures Pushed(NextWorld(w, h), f) == Pushed(w, f) + Count(Pushes(w, h), f)
  {
    PushChanges(w, h);
    hide Sound, Possible, NextWorld, Count, Pushes;
    CountAppend(w.log.pushedHigh, Pushes(w, h), f);
    CountAppend(w.log.pushedLow, Pushes(w, h), f);
  }

  /** What one happening adds to the pushes of f. */
  lemma PushedOne(w: World, h: Happening, f: TxFrame)
    requires Sound(w.tx) && Possible(w, h)
    ensures var c, n := Count(Pushes(w, h), f), w.nextId;
      && Pushed(NextWorld(w, h), f) == Pushed(w, f) + c
      && c <= 1 && (c > 0 ==> n <= f.id < NextWorld(w, h).nextId)
  {
    PushChanges(w, h);
    PushedGrows(w, h, f);
    hide Sound, Possible, NextWorld, Count, Pushes, Pushed;
    CountFresh(Pushes(w, h), w.nextId, f);
  }

  lemma PushedTwo(w: World, h: Happening, f: TxFrame, g: TxFrame)
    requires Sound(w.tx) && Possible(w, h)
    requires Count(Pushes(w, h), f) > 0 && Count(Pushes(w, h), g) > 0 && f.id == g.id
    ensures f == g
  {
    PushChanges(w, h);
    hide Sound, Possible, NextWorld, Count, Pushes;
    CountFresh(Pushes(w, h), w.nextId, f);
    CountFresh(Pushes(w, h), w.nextId, g);
  }

  lemma DistinctStep(w: World, h: Happening)
    requires Sound(w.tx) && Possible(w, h) && Distinct(w)
    ensures Distinct(NextWorld(w, h))
  {
    var w', ps := NextWorld(w, h), Pushes(w, h);
    PushChanges(w, h);
    hide Sound, Possible, NextWorld, Count, Pushes, Pushed, FreshIds;
    forall f
      ensures Pushed(w', f) > 0 ==> Pushed(w', f) == 1 && f.id < w'.nextId
    {
      PushedOne(w, h, f);
    }
    forall f, g | Pushed(w', f) > 0 && Pushed(w', g) > 0 && f.id == g.id ensures f == g {
      PushedOne(w, h, f);
      PushedOne(w, h, g);
      if Count(ps, f) > 0 && Count(ps, g) > 0 {
        PushedTwo(w, h, f, g);
      }
    }
  }

  // ----- First come, first on the wire -----

  /** The frames of a list that no cancellation took off the queue. */
  function Kept(s: seq<TxFrame>, dropped: seq<TxFrame>): seq<TxFrame> {
    if s == [] then [] else (if s[0] in dropped then [] else [s[0]]) + Kept(s[1..], dropped)
  }

  predicate FirstComeFirstSent(w: World) {
    && Kept(w.log.pushedHigh, w.log.dropped) == w.log.startedHigh + w.tx.high
    && Kept(w.log.pushedLow, w.log.dropped) == w.log.startedLow + w.tx.low
  }

  lemma {:induction false} KeptAppend(x: seq<TxFrame>, y: seq<TxFrame>, d: seq<TxFrame>)
    ensures Kept(x + y, d) == Kept(x, d) + Kept(y, d)
    decreases |x|
  {
    if x == [] {
      assert x + y == y;
    } else {
      assert (x + y)[1..] == x[1..] + y;
      KeptAppend(x[1..], y, d);
    }
  }

  lemma {:induction false} KeptAll(s: seq<TxFrame>, d: seq<TxFrame>)
    requires forall f :: f in s ==> f !in d
    ensures Kept(s, d) == s
  {
    if s != [] {
      HeadTail(s);
      KeptAll(s[1..], d);
    }
  }

  lemma {:induction false} KeptTwice(s: seq<TxFrame>, d: seq<TxFrame>, e: seq<TxFrame>)
    ensures Kept(s, d + e) == Kept(Kept(s, d), e)
  {
    if s != [] {
      KeptTwice(s[1..], d, e);
      var rest := Kept(s[1..], d);
      if s[0] !in d {
        assert ([s[0]] + rest)[1..] == rest;
      } else {
        assert [] + rest == rest;
        assert [] + Kept(rest, e) == Kept(rest, e);
      }
    }
  }

  lemma {:induction false} KeptWithout(s: seq<TxFrame>, tag: Tag, e: seq<TxFrame>)
    requires forall f :: f in s ==> (f in e <==> f.tag == tag)
    ensures Kept(s, e) == Without(s, tag)
  {
    if s != [] {
      KeptWithout(s[1..], tag, e);
    }
  }

  lemma {:induction false} RemovedIff(q: seq<TxFrame>, tag: Tag, f: TxFrame)
    ensures f in Removed(q, tag) <==> f in q && f.tag == tag
  {
    if q != [] {
      RemovedIff(q[1..], tag, f);
      HeadTail(q);
    }
  }

  ghost predicate Inv(w: World) {
    Sound(w.tx) && Conserved(w) && Distinct(w) && FirstComeFirstSent(w)
  }

  lemma PushesNotDropped(w: World, h: Happening)
    requires Inv(w) && Possible(w, h)
    ensures forall f :: f in Pushes(w, h) ==> f !in w.log.dropped
  {
    PushChanges(w, h);
    hide Sound, Possible, NextWorld, Count, FirstComeFirstSent, Pushes;
    forall f | f in Pushes(w, h)
      ensures f !in w.log.dropped
    {
      CountIn(w.log.dropped, f);
      assert ConservedAt(w, f);
    }
  }

  lemma FifoPush(w: World, h: Happening)
    requires Inv(w) && Possible(w, h)
    requires h.Sent? || h.Responded? || h.Enumerated? || h.Acked?
    ensures FirstComeFirstSent(NextWorld(w, h))
  {
    PushChanges(w, h);
    PushesNotDropped(w, h);
    var w', ps := NextWorld(w, h), Pushes(w, h);
    QueueGrows(w, h);
    hide Sound, Possible, NextWorld, Conserved, Distinct, Pushes;
    KeptAll(ps, w.log.dropped);
    KeptAppend(w.log.pushedHigh, ps, w.log.dropped);
    KeptAppend(w.log.pushedLow, ps, w.log.dropped);
    ConcatAssoc(w.log.startedHigh, w.tx.high, ps);
    ConcatAssoc(w.log.startedLow, w.tx.low, ps);
  }

  lemma QueueGrows(w: World, h: Happening)
    requires Sound(w.tx) && Possible(w, h)
    requires h.Sent? || h.Responded? || h.Enumerated? || h.Acked?
    ensures var w', ps := NextWorld(w, h), Pushes(w, h);
      && w'.tx.high == (if h.Sent? then w.tx.high else w.tx.high + ps)
      && w'.tx.low == (if h.Sent? then w.tx.low + ps else w.tx.low)
      && w'.log.startedHigh == w.log.startedHigh && w'.log.startedLow == w.log.startedLow
      && w'.log.dropped == w.log.dropped
  {
    hide Sound, WellFormed, Enabled;
    assert w.tx.high + [] == w.tx.high;
  }

  lemma FifoCancelQueue(w: World, tag: Tag, pushed: seq<TxFrame>, started: seq<TxFrame>, q: seq<TxFrame>)
    requires Kept(pushed, w.log.dropped) == started + q
    requires forall f :: f in started ==> f !in w.tx.high && f !in w.tx.low
    requires forall f :: f in q ==> f in w.tx.high || f in w.tx.low
    ensures var gone := Removed(w.tx.high, tag) + Removed(w.tx.low, tag);
      Kept(pushed, w.log.dropped + gone) == started + Without(q, tag)
  {
    var gone := Removed(w.tx.high, tag) + Removed(w.tx.low, tag);
    hide Removed, Without, Kept;
    forall f
      ensures f in gone <==> (f in w.tx.high || f in w.tx.low) && f.tag == tag
    {
      RemovedIff(w.tx.high, tag, f);
      RemovedIff(w.tx.low, tag, f);
    }
    KeptTwice(pushed, w.log.dropped, gone);
    KeptAppend(started, q, gone);
    KeptAll(started, gone);
    KeptWithout(q, tag, gone);
  }

  lemma StartedNotQueued(w: World, f: TxFrame)
    requires ConservedAt(w, f) && Distinct(w)
    ensures f in w.log.startedHigh || f in w.log.startedLow ==> f !in w.tx.high && f !in w.tx.low
  {
    hide Count;
    CountIn(w.log.startedHigh, f);
    CountIn(w.log.startedLow, f);
    CountIn(w.tx.high, f);
    CountIn(w.tx.low, f);
  }

  lemma FifoCancel(w: World, h: Happening)
    requires Inv(w) && Possible(w, h)
    requires h.PollTimedOut? || h.Died?
    ensures FirstComeFirstSent(NextWorld(w, h))
  {
    CancelChanges(w, h);
    forall f
      ensures f in w.log.startedHigh || f in w.log.startedLow ==> f !in w.tx.high && f !in w.tx.low
    {
      assert ConservedAt(w, f);
      StartedNotQueued(w, f);
    }
    hide Sound, Possible, NextWorld, Conserved, Distinct, Kept, Without, Removed;
    FifoCancelQueue(w, ClientTag(h.client), w.log.pushedHigh, w.log.startedHigh, w.tx.high);
    FifoCancelQueue(w, ClientTag(h.client), w.log.pushedLow, w.log.startedLow, w.tx.low);
  }

  lemma FifoWrite(w: World, h: Happening)
    requires Inv(w) && Possible(w, h) && h.Wrote?
    ensures FirstComeFirstSent(NextWorld(w, h))
  {
    WriteChanges(w, h);
    var t := w.tx;
    hide Sound, Possible, NextWorld, Conserved, Distinct, Kept, AddIf;
    if t.frame.None? && Subject(t).Some? {
      if t.high != [] {
        HeadTail(t.high);
        ConcatAssoc(w.log.startedHigh, [t.high[0]], t.high[1..]);
      } else {
        HeadTail(t.low);
        ConcatAssoc(w.log.startedLow, [t.low[0]], t.low[1..]);
      }
    }
  }

  lemma FifoStep(w: World, h: Happening)
    requires Inv(w) && Possible(w, h)
    ensures FirstComeFirstSent(NextWorld(w, h))
  {
    if h.Wrote? {
      FifoWrite(w, h);
    } else if h.PollTimedOut? || h.Died? {
      FifoCancel(w, h);
    } else if h.TimedOut? {
      TimeoutChanges(w, h);
      hide Sound, Conserved, Distinct, Possible, NextWorld;
    } else if h.Connected? {
      hide Sound, Conserved, Distinct;
    } else {
      FifoPush(w, h);
    }
  }

  lemma ConservedStep(w: World, h: Happening, f: TxFrame)
    requires Sound(w.tx) && Possible(w, h) && ConservedAt(w, f)
    ensures ConservedAt(NextWorld(w, h), f)
  {
    hide Sound, Count;
    match h
    case Sent(_, _) => ConservedPush(w, h, f);
    case Responded(_) => ConservedPush(w, h, f);
    case Enumerated(_) => ConservedPush(w, h, f);
    case Wrote(_) => ConservedWrite(w, h, f);
    case TimedOut(_) => ConservedTimeout(w, h, f);
    case Acked(_, _) => ConservedAck(w, h, f);
    case Connected(_) =>
    case PollTimedOut(_) => ConservedCancel(w, h, f);
    case Died(_) => ConservedCancel(w, h, f);
  }

  lemma InvStep(w: World, h: Happening)
    requires Inv(w) && Possible(w, h)
    ensures Inv(NextWorld(w, h))
  {
    NextSound(w, h);
    DistinctStep(w, h);
    FifoStep(w, h);
    hide Sound, Possible, NextWorld, Distinct, FirstComeFirstSent, ConservedAt;
    forall f
      ensures ConservedAt(NextWorld(w, h), f)
    {
      assert ConservedAt(w, f);
      ConservedStep(w, h, f);
    }
  }
}
