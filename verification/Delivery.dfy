/** What a client is sent, and when: one of its two queues (responses or notes) with the poll that
    may be waiting on it (sricd/client.c, sricd/ipc.c). */
module Delivery {
  import opened Bytes
  import opened Frame

  /** A received frame, as kept for a client. */
  datatype RxFrame = RxFrame(source: byte, dest: byte, note: byte, payload: seq<byte>) {
    predicate Valid() { |payload| <= PAYLOAD_MAX }
  }

  datatype Reply = Delivered(f: RxFrame) | TimedOut

  /** `queue` is oldest first; `ping` says that the ping callback is registered; `timers` are the live
      poll timers, `timer` is the one remembered (0 for none). */
  datatype Side = Side(queue: seq<RxFrame>, ping: bool, timers: set<nat>, timer: nat)

  const EMPTY := Side([], false, {}, 0)

  datatype Event =
    | Push(f: RxFrame)
    | Poll(timeout: int, id: nat)    // id is what glib would call the new timer
    | Expire(id: nat)

  predicate Enabled(s: Side, e: Event) {
    match e
    case Push(_) => true
    case Poll(_, id) => id != 0 && id !in s.timers
    case Expire(id) => id in s.timers
  }

  /** The ping callback: forget the poll and hand over the oldest frame. */
  function Ping(s: Side): Side
    requires s.queue != []
  {
    Side(s.queue[1..], false, if s.timer != 0 then s.timers - {s.timer} else s.timers, 0)
  }

  function Step(s: Side, e: Event): (Side, seq<Reply>) {
    match e
    case Push(f) =>
      var s1 := s.(queue := s.queue + [f]);
      if s.ping then (Ping(s1), [Delivered(s1.queue[0])]) else (s1, [])
    case Poll(timeout, id) =>
      if s.queue != [] then (s.(queue := s.queue[1..]), [Delivered(s.queue[0])])
      else if timeout == 0 then (s, [TimedOut])
      else if timeout == -1 then (s.(ping := true), [])
      else (s.(ping := true, timers := s.timers + {id}, timer := id), [])
    case Expire(id) => (s.(timers := s.timers - {id}, timer := 0), [TimedOut])
  }

  // ----- Runs -----

  predicate Legal(s: Side, es: seq<Event>)
    decreases |es|
  {
    es == [] || (Enabled(s, es[0]) && Legal(Step(s, es[0]).0, es[1..]))
  }

  function After(s: Side, es: seq<Event>): Side
    decreases |es|
  {
    if es == [] then s else After(Step(s, es[0]).0, es[1..])
  }

  function Replies(s: Side, es: seq<Event>): seq<Reply>
    decreases |es|
  {
    if es == [] then [] else Step(s, es[0]).1 + Replies(Step(s, es[0]).0, es[1..])
  }

  function Pushed(es: seq<Event>): seq<RxFrame> {
    if es == [] then [] else (if es[0].Push? then [es[0].f] else []) + Pushed(es[1..])
  }

  function Frames(rs: seq<Reply>): seq<RxFrame> {
    if rs == [] then [] else (if rs[0].Delivered? then [rs[0].f] else []) + Frames(rs[1..])
  }

  lemma {:induction false} FramesAppend(x: seq<Reply>, y: seq<Reply>)
    ensures Frames(x + y) == Frames(x) + Frames(y)
    decreases |x|
  {
    if x == [] {
      assert x + y == y;
    } else {
      assert (x + y)[1..] == x[1..] + y;
      FramesAppend(x[1..], y);
    }
  }

  /** Nobody waits while a frame is there to be had, and a remembered timer is a live one. */
  predicate Inv(s: Side) {
    && (s.ping ==> s.queue == [])
    && (s.timer != 0 ==> s.timer in s.timers)
  }

  lemma FramesOne(r: Reply)
    ensures Frames([r]) == if r.Delivered? then [r.f] else []
  {
    assert [r][1..] == [];
  }

  lemma StepDelivers(s: Side, e: Event)
    requires Inv(s) && Enabled(s, e)
    ensures var (s', rs) := Step(s, e);
      && Inv(s')
      && |rs| <= 1
      && Frames(rs) + s'.queue == s.queue + (if e.Push? then [e.f] else [])
  {
    var (s', rs) := Step(s, e);
    if rs != [] {
      assert rs == [rs[0]];
      FramesOne(rs[0]);
      hide Frames;
      if e.Poll? && s.queue != [] {
        HeadTail(s.queue);
      }
    }
  }

  /** Over any run, what was sent followed by what still waits is what was there and was pushed, in order;
      and a registered ping means an empty queue, whatever timers have expired meanwhile. */
  lemma {:induction false} NothingLostOrReordered(s: Side, es: seq<Event>)
    requires Inv(s) && Legal(s, es)
    ensures Frames(Replies(s, es)) + After(s, es).queue == s.queue + Pushed(es)
    ensures Inv(After(s, es))
    decreases |es|
  {
    if es != [] {
      var (s1, rs) := Step(s, es[0]);
      StepDelivers(s, es[0]);
      NothingLostOrReordered(s1, es[1..]);
      FramesAppend(rs, Replies(s1, es[1..]));
      hide Frames, Step, Legal, Inv;
      Regroup(Frames(rs), Frames(Replies(s1, es[1..])), After(s, es).queue, s1.queue, Pushed(es[1..]),
              s.queue, if es[0].Push? then [es[0].f] else []);
    }
  }

  lemma Regroup<T>(a: seq<T>, b: seq<T>, c: seq<T>, q1: seq<T>, p: seq<T>, q: seq<T>, e: seq<T>)
    requires b + c == q1 + p && a + q1 == q + e
    ensures (a + b) + c == q + (e + p)
  {
    calc {
      (a + b) + c;
      a + (b + c);
      a + (q1 + p);
      (a + q1) + p;
      (q + e) + p;
      q + (e + p);
    }
  }

  // ----- Requests and replies -----

  /** Whether the client is still owed an answer after an event: it asks only when it is not. */
  function Waiting(w: bool, s: Side, e: Event): bool {
    if e.Poll? then Step(s, e).1 == [] else w && Step(s, e).1 == []
  }

  /** A client that asks again only after its last poll was answered. */
  predicate Disciplined(w: bool, s: Side, es: seq<Event>)
    decreases |es|
  {
    es == [] || ((es[0].Poll? ==> !w) && Disciplined(Waiting(w, s, es[0]), Step(s, es[0]).0, es[1..]))
  }

  function WaitingAfter(w: bool, s: Side, es: seq<Event>): bool
    decreases |es|
  {
    if es == [] then w else WaitingAfter(Waiting(w, s, es[0]), Step(s, es[0]).0, es[1..])
  }

  function Polls(es: seq<Event>): nat {
    if es == [] then 0 else (if es[0].Poll? then 1 else 0) + Polls(es[1..])
  }

  /** How often a frame arrives for a ping that an expired poll left behind. */
  function Leftovers(w: bool, s: Side, es: seq<Event>): nat
    decreases |es|
  {
    if es == [] then 0
    else (if es[0].Push? && s.ping && !w then 1 else 0) + Leftovers(Waiting(w, s, es[0]), Step(s, es[0]).0, es[1..])
  }

  /** The one timer of the one outstanding poll. */
  predicate OneTimer(w: bool, s: Side) {
    && (w ==> s.ping)
    && s.timers == (if w && s.timer != 0 then {s.timer} else {})
    && (!w ==> s.timer == 0)
  }

  lemma StepTimers(w: bool, s: Side, e: Event)
    requires OneTimer(w, s) && Enabled(s, e) && (e.Poll? ==> !w)
    ensures OneTimer(Waiting(w, s, e), Step(s, e).0)
    ensures |Step(s, e).1| + (if Waiting(w, s, e) then 1 else 0)
         == (if w then 1 else 0) + (if e.Poll? then 1 else 0) + (if e.Push? && s.ping && !w then 1 else 0)
  {}

  /** Replies, and the one still owed, count the polls and the frames that answer no poll. */
  lemma {:induction false} RepliesCounted(w: bool, s: Side, es: seq<Event>)
    requires OneTimer(w, s) && Legal(s, es) && Disciplined(w, s, es)
    ensures |Replies(s, es)| + (if WaitingAfter(w, s, es) then 1 else 0)
         == (if w then 1 else 0) + Polls(es) + Leftovers(w, s, es)
    ensures OneTimer(WaitingAfter(w, s, es), After(s, es))
    decreases |es|
  {
    if es != [] {
      StepTimers(w, s, es[0]);
      hide Step, OneTimer, Waiting;
      RepliesCounted(Waiting(w, s, es[0]), Step(s, es[0]).0, es[1..]);
    }
  }

  // ----- Late frames, told from the events alone -----

  predicate Blocks(e: Event) { e.Poll? && e.timeout != 0 }

  /** A frame comes in at j after a poll expired at i, and the client has not asked to wait again in between. */
  predicate LateAt(es: seq<Event>, i: int, j: int)
    requires 0 <= i < j < |es|
  {
    es[i].Expire? && es[j].Push? && forall k :: i < k < j ==> !Blocks(es[k])
  }

  predicate NoLatePush(es: seq<Event>) {
    forall i, j :: 0 <= i < j < |es| ==> !LateAt(es, i, j)
  }

  /** The same, event by event; `stale` says that a ping is left over. */
  function NextStale(stale: bool, e: Event): bool {
    e.Expire? || (stale && !e.Push? && !Blocks(e))
  }

  predicate Late(stale: bool, es: seq<Event>)
    decreases |es|
  {
    es != [] && ((stale && es[0].Push?) || Late(NextStale(stale, es[0]), es[1..]))
  }

  /** With a ping left over, the next frame is late unless a blocking poll comes first. */
  predicate Opens(es: seq<Event>) {
    exists j :: 0 <= j < |es| && es[j].Push? && forall k :: 0 <= k < j ==> !Blocks(es[k])
  }

  lemma OpensStep(es: seq<Event>)
    requires es != []
    ensures Opens(es) <==> es[0].Push? || (!Blocks(es[0]) && Opens(es[1..]))
  {
    var t := es[1..];
    if Opens(es) && !es[0].Push? {
      var j :| 0 <= j < |es| && es[j].Push? && forall k :: 0 <= k < j ==> !Blocks(es[k]);
      assert t[j - 1].Push?;
      forall k | 0 <= k < j - 1 ensures !Blocks(t[k]) {
        assert t[k] == es[k + 1];
      }
      assert Opens(t);
    }
    if !es[0].Push? && !Blocks(es[0]) && Opens(t) {
      var j :| 0 <= j < |t| && t[j].Push? && forall k :: 0 <= k < j ==> !Blocks(t[k]);
      assert es[j + 1].Push?;
      forall k | 0 <= k < j + 1 ensures !Blocks(es[k]) {
        if k > 0 {
          assert es[k] == t[k - 1];
        }
      }
    }
    if es[0].Push? {
      assert Opens(es);
    }
  }

  lemma NoLateStep(es: seq<Event>)
    requires es != []
    ensures NoLatePush(es) <==> !(es[0].Expire? && Opens(es[1..])) && NoLatePush(es[1..])
  {
    var t := es[1..];
    hide Blocks, LateAt, Opens;
    if es[0].Expire? && Opens(t) {
      var j := LateFirst(es);
    }
    forall i, j | 0 <= i < j < |t| && LateAt(t, i, j) ensures !NoLatePush(es) {
      LateShift(es, i, j);
    }
    forall i, j | 0 <= i < j < |es| && LateAt(es, i, j) ensures !NoLatePush(t) || (es[0].Expire? && Opens(t)) {
      if i > 0 {
        LateShift(es, i - 1, j - 1);
      } else {
        FirstLate(es, j);
      }
    }
  }

  lemma LateFirst(es: seq<Event>) returns (j: int)
    requires es != [] && es[0].Expire? && Opens(es[1..])
    ensures 0 < j < |es| && LateAt(es, 0, j)
  {
    hide Blocks;
    var t := es[1..];
    j :| 0 <= j < |t| && t[j].Push? && forall k :: 0 <= k < j ==> !Blocks(t[k]);
    forall k | 0 < k < j + 1 ensures !Blocks(es[k]) {
      assert es[k] == t[k - 1];
    }
    j := j + 1;
  }

  lemma FirstLate(es: seq<Event>, j: int)
    requires 0 < j < |es| && LateAt(es, 0, j)
    ensures es[0].Expire? && Opens(es[1..])
  {
    hide Blocks;
    var t := es[1..];
    assert t[j - 1].Push?;
    forall k | 0 <= k < j - 1 ensures !Blocks(t[k]) {
      assert t[k] == es[k + 1];
    }
  }

  lemma LateShift(es: seq<Event>, i: int, j: int)
    requires 0 <= i < j < |es| - 1
    ensures LateAt(es[1..], i, j) <==> LateAt(es, i + 1, j + 1)
  {
    hide Blocks;
    var t := es[1..];
    assert t[i] == es[i + 1] && t[j] == es[j + 1];
    if LateAt(t, i, j) {
      forall k | i + 1 < k < j + 1 ensures !Blocks(es[k]) {
        assert es[k] == t[k - 1];
      }
    }
    if LateAt(es, i + 1, j + 1) {
      forall k | i < k < j ensures !Blocks(t[k]) {
        assert t[k] == es[k + 1];
      }
    }
  }

  lemma {:induction false} LateIff(stale: bool, es: seq<Event>)
    ensures Late(stale, es) <==> (stale && Opens(es)) || !NoLatePush(es)
    decreases |es|
  {
    if es != [] {
      LateIff(NextStale(stale, es[0]), es[1..]);
      OpensStep(es);
      NoLateStep(es);
      hide Opens, NoLatePush;
    }
  }

  /** A ping is left over exactly when it is registered and nobody waits. */
  lemma StaleStep(w: bool, s: Side, e: Event)
    requires OneTimer(w, s) && Inv(s) && Enabled(s, e) && (e.Poll? ==> !w)
    ensures var s' := Step(s, e).0;
      Inv(s') && ((s'.ping && !Waiting(w, s, e)) <==> NextStale(s.ping && !w, e))
  {}

  lemma {:induction false} LeftoversAreLate(w: bool, s: Side, es: seq<Event>)
    requires OneTimer(w, s) && Inv(s) && Legal(s, es) && Disciplined(w, s, es)
    ensures Leftovers(w, s, es) > 0 <==> Late(s.ping && !w, es)
    decreases |es|
  {
    if es != [] {
      StepTimers(w, s, es[0]);
      StaleStep(w, s, es[0]);
      hide Step, OneTimer, Waiting, NextStale, Inv;
      LeftoversAreLate(Waiting(w, s, es[0]), Step(s, es[0]).0, es[1..]);
    }
  }

  /** A client that asks again only after it was answered gets exactly one reply for each poll if and only if no
      frame comes in after a poll expired and before it asks to wait again. */
  lemma OneReplyPerPollIff(es: seq<Event>)
    requires Legal(EMPTY, es) && Disciplined(false, EMPTY, es)
    ensures |Replies(EMPTY, es)| + (if WaitingAfter(false, EMPTY, es) then 1 else 0) == Polls(es)
       <==> NoLatePush(es)
  {
    RepliesCounted(false, EMPTY, es);
    LeftoversAreLate(false, EMPTY, es);
    LateIff(false, es);
  }

  // ----- Poll timers -----

  lemma {:induction false} AfterSnoc(s: Side, es: seq<Event>, e: Event)
    ensures After(s, es + [e]) == Step(After(s, es), e).0
    ensures Legal(s, es + [e]) <==> Legal(s, es) && Enabled(After(s, es), e)
    decreases |es|
  {
    if es == [] {
      assert [e][1..] == [] && [] + [e] == [e];
      assert Legal(Step(s, e).0, []);
    } else {
      assert (es + [e])[1..] == es[1..] + [e];
      hide Step, Enabled;
      AfterSnoc(Step(s, es[0]).0, es[1..], e);
    }
  }

  function TimerOf(e: Event): nat { if e.Push? then 0 else e.id }

  predicate Timed(e: Event) { e.Poll? && e.timeout != 0 && e.timeout != -1 }

  /** The poll at i finds nothing queued, and waits with a timer. */
  predicate HadToWait(es: seq<Event>, i: nat)
    requires i < |es|
  {
    Timed(es[i]) && After(EMPTY, es[..i]).queue == []
  }

  /** From i up to j nothing comes in, expires or asks for another timer. */
  predicate Undisturbed(es: seq<Event>, i: nat, j: nat)
    requires i < j <= |es|
  {
    forall k :: i < k < j ==> !es[k].Push? && !es[k].Expire? && !Timed(es[k])
  }

  /** The timer of the poll at i neither expires nor is removed because a frame answers that poll. */
  predicate LeavesTimer(es: seq<Event>, i: nat)
    requires i < |es|
  {
    && HadToWait(es, i)
    && forall j :: i < j < |es| ==> es[j] != Expire(TimerOf(es[i])) && !(es[j].Push? && Undisturbed(es, i, j))
  }

  /** What is known of the poll at i after a run. */
  predicate Tracked(s: Side, es: seq<Event>, i: nat)
    requires i < |es|
  {
    && (LeavesTimer(es, i) ==> TimerOf(es[i]) in s.timers)
    && (HadToWait(es, i) ==> TimerOf(es[i]) != 0)
    && (HadToWait(es, i) && Undisturbed(es, i, |es|) ==> s.ping && s.queue == [] && s.timer == TimerOf(es[i]))
  }

  predicate Explained(es: seq<Event>, id: nat) {
    exists i: nat :: i < |es| && LeavesTimer(es, i) && TimerOf(es[i]) == id
  }

  /** The remembered timer belongs to the last poll that had to wait. */
  predicate Remembered(es: seq<Event>, id: nat) {
    exists i: nat :: i < |es| && HadToWait(es, i) && Undisturbed(es, i, |es|) && TimerOf(es[i]) == id
  }

  predicate OnePoll(es: seq<Event>) {
    forall i: nat, j: nat ::
      i < |es| && j < |es| && LeavesTimer(es, i) && LeavesTimer(es, j) && TimerOf(es[i]) == TimerOf(es[j]) ==> i == j
  }

  predicate TimersKnown(s: Side, es: seq<Event>) {
    && (forall i: nat :: i < |es| ==> Tracked(s, es, i))
    && (forall id :: id in s.timers ==> Explained(es, id))
    && (s.timer != 0 ==> Remembered(es, s.timer))
    && OnePoll(es)
  }

  /** One more event, for a poll before it. */
  lemma SnocOld(es: seq<Event>, e: Event, i: nat)
    requires i < |es|
    ensures var es' := es + [e];
      && es'[i] == es[i] && (HadToWait(es', i) <==> HadToWait(es, i))
      && (Undisturbed(es', i, |es|) <==> Undisturbed(es, i, |es|))
      && (Undisturbed(es', i, |es'|) <==> Undisturbed(es, i, |es|) && !e.Push? && !e.Expire? && !Timed(e))
      && (LeavesTimer(es', i) <==> LeavesTimer(es, i) && e != Expire(TimerOf(es[i]))
                                   && !(e.Push? && Undisturbed(es, i, |es|)))
  {
    var es' := es + [e];
    assert es'[..i] == es[..i];
    assert forall k :: 0 <= k < |es| ==> es'[k] == es[k];
    hide After, Timed;
    forall j: nat | i < j <= |es| ensures Undisturbed(es', i, j) <==> Undisturbed(es, i, j) {
      forall k | i < k < j ensures es'[k] == es[k] {}
    }
    assert es'[|es|] == e;
    if LeavesTimer(es', i) {
      forall j | i < j < |es| ensures es[j] != Expire(TimerOf(es[i])) && !(es[j].Push? && Undisturbed(es, i, j)) {
        assert es'[j] == es[j];
      }
    }
  }

  /** The last event itself. */
  lemma SnocNew(es: seq<Event>, e: Event)
    ensures var es' := es + [e];
      && (HadToWait(es', |es|) <==> Timed(e) && After(EMPTY, es).queue == [])
      && Undisturbed(es', |es|, |es'|) && (LeavesTimer(es', |es|) <==> HadToWait(es', |es|))
  {
    assert (es + [e])[..|es|] == es;
    hide After, Timed;
  }

  lemma TrackedStep(es: seq<Event>, e: Event, i: nat)
    requires var s := After(EMPTY, es); i < |es| && TimersKnown(s, es) && Inv(s) && Enabled(s, e)
    ensures Tracked(Step(After(EMPTY, es), e).0, es + [e], i)
  {
    var s := After(EMPTY, es);
    SnocOld(es, e, i);
    assert Tracked(s, es, i);
    hide HadToWait, Undisturbed, After, LeavesTimer;
    if e.Push? && LeavesTimer(es, i) && s.timer == TimerOf(es[i]) && s.timer != 0 {
      var j: nat :| j < |es| && HadToWait(es, j) && Undisturbed(es, j, |es|) && TimerOf(es[j]) == s.timer;
      assert Tracked(s, es, j);
      RememberedLeaves(es, j);
      assert i == j;
    }
  }

  lemma RememberedLeaves(es: seq<Event>, j: nat)
    requires j < |es| && HadToWait(es, j) && Undisturbed(es, j, |es|)
    ensures LeavesTimer(es, j)
  {
    hide HadToWait;
  }

  lemma ExplainedStep(es: seq<Event>, e: Event, id: nat)
    requires var s := After(EMPTY, es); TimersKnown(s, es) && Inv(s) && Enabled(s, e)
    requires id in Step(After(EMPTY, es), e).0.timers
    ensures Explained(es + [e], id)
  {
    var s := After(EMPTY, es);
    hide HadToWait, Undisturbed, After, LeavesTimer;
    if id in s.timers {
      var i: nat :| i < |es| && LeavesTimer(es, i) && TimerOf(es[i]) == id;
      SnocOld(es, e, i);
      assert Tracked(s, es, i);
      LeavesWaited(es, i);
      assert LeavesTimer(es + [e], i);
    } else {
      SnocNew(es, e);
      assert LeavesTimer(es + [e], |es|);
    }
  }

  lemma LeavesWaited(es: seq<Event>, i: nat)
    requires i < |es| && LeavesTimer(es, i)
    ensures HadToWait(es, i)
  {}

  lemma RememberedStep(es: seq<Event>, e: Event)
    requires var s := After(EMPTY, es); TimersKnown(s, es) && Inv(s) && Enabled(s, e)
    ensures var t := Step(After(EMPTY, es), e).0.timer; t != 0 ==> Remembered(es + [e], t)
  {
    var s := After(EMPTY, es);
    var t := Step(s, e).0.timer;
    SnocNew(es, e);
    hide HadToWait, Undisturbed, After, LeavesTimer;
    if t != 0 {
      if e.Poll? && t == e.id && Timed(e) && s.queue == [] {
        assert HadToWait(es + [e], |es|);
      } else {
        assert t == s.timer;
        var i: nat :| i < |es| && HadToWait(es, i) && Undisturbed(es, i, |es|) && TimerOf(es[i]) == t;
        assert Tracked(s, es, i);
        SnocOld(es, e, i);
        assert HadToWait(es + [e], i);
      }
    }
  }

  lemma OnePollStep(es: seq<Event>, e: Event)
    requires var s := After(EMPTY, es); TimersKnown(s, es) && Enabled(s, e)
    ensures OnePoll(es + [e])
  {
    var s, es' := After(EMPTY, es), es + [e];
    hide HadToWait, Undisturbed, After, LeavesTimer;
    SnocNew(es, e);
    forall i: nat | i < |es| && LeavesTimer(es', i) ensures LeavesTimer(es, i) && TimerOf(es[i]) in s.timers {
      SnocOld(es, e, i);
      assert Tracked(s, es, i);
    }
    forall i: nat, j: nat |
      i < |es'| && j < |es'| && LeavesTimer(es', i) && LeavesTimer(es', j) && TimerOf(es'[i]) == TimerOf(es'[j])
      ensures i == j
    {
      if i == |es| || j == |es| {
        NewTimed(es, e);
      }
    }
  }

  lemma NewTimed(es: seq<Event>, e: Event)
    ensures LeavesTimer(es + [e], |es|) ==> Timed(e)
  {
    hide After;
  }

  lemma TimersStep(es: seq<Event>, e: Event)
    requires var s := After(EMPTY, es); TimersKnown(s, es) && Inv(s) && Enabled(s, e)
    ensures TimersKnown(Step(After(EMPTY, es), e).0, es + [e])
  {
    var s := After(EMPTY, es);
    var s' := Step(s, e).0;
    forall i: nat | i < |es| + 1 ensures Tracked(s', es + [e], i) {
      if i < |es| {
        TrackedStep(es, e, i);
      } else {
        SnocNew(es, e);
        hide HadToWait, Undisturbed, After, LeavesTimer;
      }
    }
    forall id | id in s'.timers ensures Explained(es + [e], id) {
      ExplainedStep(es, e, id);
    }
    RememberedStep(es, e);
    OnePollStep(es, e);
    hide Step, Tracked, Explained, Remembered, OnePoll, After;
  }

  predicate LeavesSome(es: seq<Event>) {
    exists i: nat :: i < |es| && LeavesTimer(es, i)
  }

  lemma {:induction false} TimersRun(es: seq<Event>)
    requires Legal(EMPTY, es)
    ensures TimersKnown(After(EMPTY, es), es) && Inv(After(EMPTY, es))
    decreases |es|
  {
    if es != [] {
      var init, e := es[..|es| - 1], es[|es| - 1];
      assert init + [e] == es;
      AfterSnoc(EMPTY, init, e);
      TimersRun(init);
      StepDelivers(After(EMPTY, init), e);
      hide Step, Enabled, Legal, After, TimersKnown, Inv, Frames;
      TimersStep(init, e);
    }
  }

  /** After any run a timer is live exactly if a poll that had to wait armed it, it has not expired since, and no frame
      answered that poll: one that comes in before anything else expires or asks for a timer. */
  lemma TimerLeftIff(es: seq<Event>, id: nat)
    requires Legal(EMPTY, es)
    ensures id in After(EMPTY, es).timers
       <==> exists i: nat :: i < |es| && LeavesTimer(es, i) && TimerOf(es[i]) == id
  {
    TimersRun(es);
    hide LeavesTimer, Legal, After, Remembered, Inv;
    forall i: nat | i < |es| && LeavesTimer(es, i) && TimerOf(es[i]) == id ensures id in After(EMPTY, es).timers {
      assert Tracked(After(EMPTY, es), es, i);
    }
  }

  /** Poll, expiry, frame: two replies to one poll. Notes come in whenever they like; a response comes in only if the
      client sends something after the expiry (LateResponses.CarefulIsSafe). */
  lemma LateResponse(f: RxFrame)
    ensures var es := [Poll(50, 1), Expire(1), Push(f)];
      && Legal(EMPTY, es) && Disciplined(false, EMPTY, es)
      && Polls(es) == 1 && Replies(EMPTY, es) == [TimedOut, Delivered(f)]
  {
    var es := [Poll(50, 1), Expire(1), Push(f)];
    var s1 := Side([], true, {1}, 1);
    var s2 := Side([], true, {}, 0);
    assert es[1..] == [Expire(1), Push(f)] && es[2..] == [Push(f)] && es[3..] == [];
    assert EMPTY.timers + {1} == {1};
    assert Step(EMPTY, es[0]) == (s1, []);
    assert {1} - {1} == {};
    assert Step(s1, es[1]) == (s2, [TimedOut]);
    assert s2.queue + [f] == [f] && [f][1..] == [];
    assert Step(s2, es[2]) == (EMPTY, [Delivered(f)]);
    LateLegal(es, s1, s2);
    LateReplies(es, s1, s2);
  }

  lemma LateLegal(es: seq<Event>, s1: Side, s2: Side)
    requires |es| == 3 && Enabled(EMPTY, es[0]) && Enabled(s1, es[1]) && Enabled(s2, es[2])
    requires es[0].Poll? && !es[1].Poll? && !es[2].Poll?
    requires Step(EMPTY, es[0]) == (s1, []) && Step(s1, es[1]).0 == s2
    ensures Legal(EMPTY, es) && Disciplined(false, EMPTY, es) && Polls(es) == 1
  {
    hide Step, Enabled;
    var e1 := es[1..];
    var e2 := e1[1..];
    assert e1[0] == es[1] && e2[0] == es[2] && e2[1..] == [];
    assert Legal(s2, e2);
    assert Polls(e2) == 0;
    assert Polls(e1) == 0;
    assert Disciplined(Waiting(true, s1, es[1]), s2, e2);
    assert Disciplined(true, s1, e1);
  }

  lemma LateReplies(es: seq<Event>, s1: Side, s2: Side)
    requires |es| == 3
    requires Step(EMPTY, es[0]) == (s1, []) && Step(s1, es[1]).0 == s2
    ensures Replies(EMPTY, es) == Step(s1, es[1]).1 + Step(s2, es[2]).1
  {
    hide Step;
    var e1 := es[1..];
    var e2 := e1[1..];
    assert e1[0] == es[1] && e2[0] == es[2] && e2[1..] == [];
    assert Replies(s2, e2) == Step(s2, es[2]).1;
  }
}
