/** What holds in every run of the transmitter. */
module TxTheorems {
  import opened Bytes
  import opened Encoding
  import opened OutputQueue
  import opened TxModel
  import opened TxRuns

  // ----- Runs -----

  predicate LegalRun(w: World, hs: seq<Happening>)
    requires Sound(w.tx)
    decreases |hs|
  {
    hs == [] || (Possible(w, hs[0]) && (NextSound(w, hs[0]); LegalRun(NextWorld(w, hs[0]), hs[1..])))
  }

  function After(w: World, hs: seq<Happening>): (r: World)
    requires Sound(w.tx) && LegalRun(w, hs)
    ensures Sound(r.tx)
    decreases |hs|
  {
    if hs == [] then w else
      NextSound(w, hs[0]);
      After(NextWorld(w, hs[0]), hs[1..])
  }

  lemma {:induction false} RunInv(w: World, hs: seq<Happening>)
    requires Inv(w) && LegalRun(w, hs)
    ensures Inv(After(w, hs))
    decreases |hs|
  {
    if hs != [] {
      InvStep(w, hs[0]);
      hide Inv, Possible, NextWorld;
      RunInv(NextWorld(w, hs[0]), hs[1..]);
    }
  }

  lemma GenesisInv()
    ensures Inv(GENESIS)
  {
    forall f ensures ConservedAt(GENESIS, f) {}
    assert AllFramesValid([]);
  }

  lemma ReachableInv(hs: seq<Happening>)
    requires LegalRun(GENESIS, hs)
    ensures Inv(After(GENESIS, hs))
  {
    GenesisInv();
    hide Inv;
    RunInv(GENESIS, hs);
  }

  /** Timer, write watch and output buffer, in every state between callbacks. */
  lemma NeverStalls(hs: seq<Happening>)
    requires LegalRun(GENESIS, hs)
    ensures var t := After(GENESIS, hs).tx;
      && (t.timers == if t.frame.Some? && t.pos == |t.wire| then {t.timerId} else {})
      && (t.frame.Some? && t.pos < |t.wire| ==> t.watch)
      && (t.frame.None? && (t.high != [] || (t.enumerated && t.low != [])) ==> t.watch)
      && (t.frame.Some? ==> t.frame.value.Valid() && t.wire == Encode(t.frame.value.ToMessage()))
  {
    var w := After(GENESIS, hs);
    ReachableInv(hs);
    hide After, LegalRun, Conserved, Distinct, FirstComeFirstSent, Encode;
  }

  /** Every pushed frame is exactly one of queued, in flight, retired and dropped. */
  lemma ExactlyOnePlace(hs: seq<Happening>, f: TxFrame)
    requires LegalRun(GENESIS, hs)
    ensures var w := After(GENESIS, hs);
      f in w.log.pushedHigh || f in w.log.pushedLow ==>
        Count(w.tx.high, f) + Count(w.tx.low, f) + CountOne(w.tx.frame, f)
        + Count(w.log.retired, f) + Count(w.log.dropped, f) == 1
  {
    var w := After(GENESIS, hs);
    ReachableInv(hs);
    hide After, LegalRun, Sound, FirstComeFirstSent, Count;
    CountIn(w.log.pushedHigh, f);
    CountIn(w.log.pushedLow, f);
    assert ConservedAt(w, f);
  }

  /** Per priority, frames first reach the wire in push order, minus those a cancellation dropped. */
  lemma SentInPushOrder(hs: seq<Happening>)
    requires LegalRun(GENESIS, hs)
    ensures var log := After(GENESIS, hs).log;
      && log.startedHigh <= Kept(log.pushedHigh, log.dropped)
      && log.startedLow <= Kept(log.pushedLow, log.dropped)
  {
    var w := After(GENESIS, hs);
    ReachableInv(hs);
    hide After, LegalRun, Sound, Conserved, Distinct, Kept;
  }

  /** A frame of the low priority is only begun once the bus is enumerated, and while no frame of the high priority
      waits. */
  lemma LowPriorityWaits(w: World, h: Happening)
    requires Sound(w.tx) && Possible(w, h) && NextWorld(w, h).log.startedLow != w.log.startedLow
    ensures w.tx.enumerated && w.tx.high == [] && w.tx.low != [] && w.tx.frame == None
    ensures NextWorld(w, h).log.startedLow == w.log.startedLow + [w.tx.low[0]]
  {
    hide Sound, Enabled, Removed, GoneOnWritable, Step;
  }

  // ----- A cancelled frame -----

  /** f is cancelled in flight, or done with. */
  ghost predicate Doomed(w: World, f: TxFrame) {
    (w.tx.frame == Some(f) && w.tx.cancelled) || Count(w.log.retired, f) > 0
  }

  /** How often f may still be written to the end. */
  function Budget(w: World, f: TxFrame): nat {
    if w.tx.frame == Some(f) && !AwaitingAck(w.tx) then 1 else 0
  }

  predicate Spent(w: World, w': World, f: TxFrame) {
    && Count(w.log.finished, f) <= Count(w'.log.finished, f)
    && Count(w'.log.finished, f) + Budget(w', f) <= Count(w.log.finished, f) + Budget(w, f)
    && (Budget(w, f) == 0 ==> Count(w'.log.writes, f) == Count(w.log.writes, f))
  }

  lemma DoomedElsewhere(w: World, f: TxFrame)
    requires Inv(w) && Doomed(w, f)
    ensures f !in w.tx.high && f !in w.tx.low
    ensures Count(w.log.retired, f) > 0 ==> w.tx.frame != Some(f)
  {
    hide Sound, FirstComeFirstSent, Count;
    CountIn(w.tx.high, f);
    CountIn(w.tx.low, f);
    assert ConservedAt(w, f);
  }

  lemma WriteCounts(w: World, h: Happening, f: TxFrame)
    requires Sound(w.tx) && Possible(w, h) && h.Wrote?
    ensures var s, w' := CountOne(Subject(w.tx), f), NextWorld(w, h);
      && Count(w'.log.writes, f) == Count(w.log.writes, f) + s
      && Count(w'.log.finished, f)
         == Count(w.log.finished, f) + (if w'.tx.frame.None? || w'.tx.pos == |w'.tx.wire| then s else 0)
      && Count(w'.log.retired, f) == Count(w.log.retired, f) + (if w'.tx.frame.None? then s else 0)
  {
    var s, w' := Subject(w.tx), NextWorld(w, h);
    WriteChanges(w, h);
    hide Possible, NextWorld, Count, AddIf, Sound, Subject, CountOne;
    CountAddIf(w.log.writes, true, s, f);
    CountAddIf(w.log.finished, w'.tx.frame.None? || w'.tx.pos == |w'.tx.wire|, s, f);
    CountAddIf(w.log.retired, w'.tx.frame.None?, s, f);
  }

  /** A frame that is in no queue is written on only as far as its budget goes. */
  lemma DoomedSubject(t: Tx, f: TxFrame)
    requires f !in t.high && f !in t.low
    ensures Subject(t) == Some(f) <==> t.frame == Some(f) && !AwaitingAck(t)
  {}

  lemma DoomedWrite(w: World, h: Happening, f: TxFrame)
    requires Inv(w) && Possible(w, h) && Doomed(w, f) && h.Wrote?
    ensures Doomed(NextWorld(w, h), f) && Spent(w, NextWorld(w, h), f)
  {
    DoomedElsewhere(w, f);
    DoomedSubject(w.tx, f);
    WriteChanges(w, h);
    WriteKeepsCancelled(w, h);
    WriteCounts(w, h, f);
    hide Inv, Possible, NextWorld, NextLog, Count, Sound, Subject, Removed, ToEvent;
  }

  lemma WriteKeepsCancelled(w: World, h: Happening)
    requires Sound(w.tx) && Possible(w, h) && h.Wrote?
    ensures w.tx.frame.Some? ==> NextWorld(w, h).tx.cancelled == w.tx.cancelled
  {
    hide AllFramesValid, Encode, NextLog, Watched, OneTimer;
  }

  lemma DoomedEnds(w: World, h: Happening, f: TxFrame)
    requires Inv(w) && Possible(w, h) && Doomed(w, f) && (h.TimedOut? || h.Acked?)
    ensures Doomed(NextWorld(w, h), f) && Spent(w, NextWorld(w, h), f)
  {
    var w' := NextWorld(w, h);
    if h.TimedOut? {
      TimeoutChanges(w, h);
      hide Inv, Possible, NextWorld, Count, AddIf;
      CountAddIf(w.log.retired, w.tx.cancelled, w.tx.frame, f);
      assert w'.tx.frame == Some(f) ==> !w.tx.cancelled;
      DoomedNotRetired(w, f);
    } else {
      hide Sound, Conserved, Distinct, FirstComeFirstSent, Enabled, WellFormed, Count, AddIf;
      CountAddIf(w.log.retired, true, w.tx.frame, f);
    }
  }

  lemma DoomedNotRetired(w: World, f: TxFrame)
    requires Inv(w) && Doomed(w, f)
    ensures w.tx.frame == Some(f) ==> w.tx.cancelled
  {
    hide Sound, FirstComeFirstSent, Count;
    assert ConservedAt(w, f);
  }

  lemma DoomedOther(w: World, h: Happening, f: TxFrame)
    requires Inv(w) && Possible(w, h) && Doomed(w, f) && !h.TimedOut? && !h.Acked? && !h.Wrote?
    ensures Doomed(NextWorld(w, h), f) && Spent(w, NextWorld(w, h), f)
  {
    hide Sound, Conserved, Distinct, FirstComeFirstSent, Enabled, WellFormed, Count;
  }

  lemma DoomedStep(w: World, h: Happening, f: TxFrame)
    requires Inv(w) && Possible(w, h) && Doomed(w, f)
    ensures Doomed(NextWorld(w, h), f) && Spent(w, NextWorld(w, h), f)
  {
    hide Inv, Possible, NextWorld, Doomed, Spent;
    if h.Wrote? {
      DoomedWrite(w, h, f);
    } else if h.TimedOut? || h.Acked? {
      DoomedEnds(w, h, f);
    } else {
      DoomedOther(w, h, f);
    }
  }

  lemma SpentThen(w: World, v: World, u: World, f: TxFrame)
    requires Spent(w, v, f) && Spent(v, u, f)
    ensures Spent(w, u, f)
  {
    hide Count;
  }

  lemma {:induction false} DoomedRun(w: World, hs: seq<Happening>, f: TxFrame)
    requires Inv(w) && LegalRun(w, hs) && Doomed(w, f)
    ensures Doomed(After(w, hs), f) && Spent(w, After(w, hs), f)
    decreases |hs|
  {
    if hs == [] {
      hide Doomed, Count, Conserved, Distinct, FirstComeFirstSent;
    } else {
      var v := NextWorld(w, hs[0]);
      InvStep(w, hs[0]);
      DoomedStep(w, hs[0], f);
      hide Inv, Possible, NextWorld, Doomed, Spent;
      DoomedRun(v, hs[1..], f);
      SpentThen(w, v, After(v, hs[1..]), f);
    }
  }

  /** A frame cancelled in flight is never written again if its timer was armed;
      otherwise at most the write in progress is completed, once. */
  lemma CancelledFrame(w: World, hs: seq<Happening>, f: TxFrame)
    requires Inv(w) && LegalRun(w, hs) && w.tx.frame == Some(f) && w.tx.cancelled
    ensures w.tx.timers != {} ==> Count(After(w, hs).log.writes, f) == Count(w.log.writes, f)
    ensures Count(After(w, hs).log.finished, f) <= Count(w.log.finished, f) + (if w.tx.timers != {} then 0 else 1)
  {
    DoomedRun(w, hs, f);
    hide Conserved, Distinct, FirstComeFirstSent, LegalRun, After, Count, WellFormed, Watched, WireIsFrame;
  }
}
