/** What leaves by the serial port over a run of the transmitter. */
module TxOutput {
  import opened Bytes
  import opened Encoding
  import opened OutputQueue
  import opened TxModel
  import opened TxRuns
  import TxTheorems
  import opened RxModel
  import opened Reception
  import opened EndToEnd

  // ----- The frame in flight -----

  /** Of the frame in flight exactly the first `pos` bytes have left since it was last begun. */
  predicate OutFine(w: World) {
    w.log.base <= |w.log.out| && (w.tx.frame.Some? ==> w.tx.pos <= |w.tx.wire| && Begun(w) == w.tx.wire[..w.tx.pos])
  }

  /** What has left since a frame was last loaded or its timer last fired. */
  function Begun(w: World): seq<byte>
    requires w.log.base <= |w.log.out|
  {
    w.log.out[w.log.base..]
  }

  /** The frame that a write callback works on, ready to be written. */
  function Ready(t: Tx): Tx
    requires WellFormed(t) && Subject(t).Some?
  {
    if t.frame.Some? then t else NextTx(t)
  }

  lemma ReadyIs(t: Tx)
    requires Sound(t) && Subject(t).Some?
    ensures var t1 := Ready(t);
      && t1.frame == Subject(t) && Subject(t).value.Valid() && t1.pos < |t1.wire|
      && t1.wire == Encode(Subject(t).value.ToMessage())
      && (t.frame.None? ==> t1.pos == 0) && (t.frame.Some? ==> t1 == t)
  {
    hide Encode;
    if t.frame.None? {
      assert t.high != [] ==> t.high[0] in t.high;
      assert t.low != [] ==> t.low[0] in t.low;
      EncodeNonEmpty(Subject(t).value.ToMessage());
    }
  }

  /** A write takes the next bytes of that frame, no more than the port offers, and goes on after them. */
  lemma WriteTakes(t: Tx, count: nat)
    requires Sound(t) && Subject(t).Some?
    ensures var t1, t', gone := Ready(t), OnWritable(t, count), GoneOnWritable(t, count);
      && t1.pos <= |t1.wire| && gone <= t1.wire[t1.pos..] && |gone| <= count
      && (|gone| == count || t1.pos + |gone| == |t1.wire|)
      && (t'.frame.Some? ==> t'.wire == t1.wire && t'.pos == t1.pos + |gone| && t'.frame == t1.frame)
      && (t'.frame.None? ==> t1.pos + |gone| == |t1.wire|)
  {
    ReadyIs(t);
    hide Encode, AllFramesValid, OneTimer, Watched;
  }

  lemma NothingWritten(t: Tx, count: nat)
    requires Sound(t) && Subject(t).None?
    ensures GoneOnWritable(t, count) == [] && OnWritable(t, count).frame == t.frame
    ensures OnWritable(t, count).wire == t.wire && OnWritable(t, count).pos == t.pos
    ensures t.frame.Some? ==> AwaitingAck(t)
  {
    hide AllFramesValid, OneTimer, Watched;
  }

  lemma WroteOut(w: World, count: nat)
    requires Sound(w.tx) && Possible(w, Wrote(count))
    ensures var w' := NextWorld(w, Wrote(count));
      && w'.tx == OnWritable(w.tx, count) && w'.log.out == w.log.out + GoneOnWritable(w.tx, count)
      && w'.log.base == (if w.tx.frame.None? then |w.log.out| else w.log.base)
      && w'.log.finished == AddIf(w.log.finished, w'.tx.frame.None? || w'.tx.pos == |w'.tx.wire|, Subject(w.tx))
  {
    hide Sound, OnWritable, GoneOnWritable, AddIf;
  }

  /** A write makes what has left of the frame longer. */
  lemma BegunGrows(w: World, count: nat)
    requires Sound(w.tx) && OutFine(w) && Possible(w, Wrote(count)) && Subject(w.tx).Some?
    ensures var t1, w', gone := Ready(w.tx), NextWorld(w, Wrote(count)), GoneOnWritable(w.tx, count);
      && w'.log.base <= |w'.log.out| && t1.pos <= |t1.wire| && Begun(w') == t1.wire[..t1.pos] + gone
  {
    WroteOut(w, count);
    ReadyIs(w.tx);
    var w', gone := NextWorld(w, Wrote(count)), GoneOnWritable(w.tx, count);
    hide Encode, Sound, OnWritable, GoneOnWritable, NextWorld, Possible, Ready, Subject, AddIf;
    if w.tx.frame.None? {
      assert w'.log.out[|w.log.out|..] == gone && [] + gone == gone;
      assert Ready(w.tx).wire[..0] == [];
    } else {
      assert (w.log.out + gone)[w.log.base..] == w.log.out[w.log.base..] + gone;
    }
  }

  /** A frame counts as written to the end exactly when all of its encoding has left since it was last begun. */
  lemma FinishedIff(w: World, count: nat)
    requires Sound(w.tx) && OutFine(w) && Possible(w, Wrote(count)) && Subject(w.tx).Some?
    ensures var f, w' := Subject(w.tx).value, NextWorld(w, Wrote(count));
      && OutFine(w') && f.Valid()
      && w'.log.finished == w.log.finished + (if Begun(w') == Encode(f.ToMessage()) then [f] else [])
      && Begun(w') <= Encode(f.ToMessage())
  {
    var t1, gone := Ready(w.tx), GoneOnWritable(w.tx, count);
    WroteOut(w, count);
    ReadyIs(w.tx);
    WriteTakes(w.tx, count);
    BegunGrows(w, count);
    hide Encode, Sound, OnWritable, GoneOnWritable, NextWorld, Possible, Ready, Subject, Begun;
    PrefixOn(t1.wire, t1.pos, gone);
    assert w.log.finished + [] == w.log.finished;
  }

  lemma PrefixOn(s: seq<byte>, n: nat, t: seq<byte>)
    requires n <= |s| && t <= s[n..]
    ensures s[..n] + t == s[..n + |t|]
    ensures s[..n] + t == s <==> n + |t| == |s|
  {
    if n + |t| == |s| {
      assert s[..|s|] == s;
    }
  }

  lemma OutStep(w: World, h: Happening)
    requires Sound(w.tx) && OutFine(w) && Possible(w, h)
    ensures OutFine(NextWorld(w, h))
  {
    if h.Wrote? {
      if Subject(w.tx).Some? {
        FinishedIff(w, h.count);
      } else {
        WroteOut(w, h.count);
        NothingWritten(w.tx, h.count);
        assert w.log.out + [] == w.log.out;
        hide Sound, NextWorld, Possible, OnWritable, GoneOnWritable, Subject;
      }
    } else if h.TimedOut? {
      TimeoutChanges(w, h);
      hide Sound, NextWorld, Possible;
    } else {
      OthersKeepOut(w, h);
      hide NextWorld, Possible;
    }
  }

  /** Nothing else touches what has left, or how far the frame in flight is. */
  lemma OthersKeepOut(w: World, h: Happening)
    requires Sound(w.tx) && Possible(w, h) && !h.Wrote? && !h.TimedOut?
    ensures var w' := NextWorld(w, h);
      && w'.log.out == w.log.out && w'.log.base == w.log.base && w'.log.finished == w.log.finished
      && if h.Acked? then w'.tx.frame == None
         else w'.tx.frame == w.tx.frame && w'.tx.wire == w.tx.wire && w'.tx.pos == w.tx.pos
  {
    hide Sound, Removed, Without, AddIf;
  }

  lemma {:induction false} RunOut(w: World, hs: seq<Happening>)
    requires Sound(w.tx) && OutFine(w) && TxTheorems.LegalRun(w, hs)
    ensures OutFine(TxTheorems.After(w, hs))
    decreases |hs|
  {
    if hs != [] {
      NextSound(w, hs[0]);
      OutStep(w, hs[0]);
      hide Sound, OutFine, NextWorld, Possible;
      RunOut(NextWorld(w, hs[0]), hs[1..]);
    }
  }

  /** After any run, of the frame in flight exactly the first `pos` bytes of its encoding have left since it was loaded
      or its timer last fired. */
  lemma InFlight(hs: seq<Happening>)
    requires TxTheorems.LegalRun(GENESIS, hs)
    ensures var w := TxTheorems.After(GENESIS, hs);
      w.tx.frame.Some? ==>
        && w.tx.frame.value.Valid() && w.log.base <= |w.log.out|
        && w.tx.pos <= |Encode(w.tx.frame.value.ToMessage())|
        && Begun(w) == Encode(w.tx.frame.value.ToMessage())[..w.tx.pos]
  {
    TxTheorems.NeverStalls(hs);
    RunOut(GENESIS, hs);
    hide Encode, TxTheorems.LegalRun, TxTheorems.After;
  }

  // ----- The whole stream -----

  lemma {:induction false} EncodeAllSnoc(ms: seq<Message>, m: Message)
    requires AllValid(ms) && m.Valid()
    ensures AllValid(ms + [m]) && EncodeAll(ms + [m]) == EncodeAll(ms) + Encode(m)
    decreases |ms|
  {
    hide Encode;
    if ms == [] {
      assert [] + [m] == [m] && [m][1..] == [];
      assert EncodeAll([m]) == Encode(m) + EncodeAll([]);
    } else {
      assert (ms + [m])[1..] == ms[1..] + [m];
      EncodeAllSnoc(ms[1..], m);
    }
  }

  lemma OneMoreFinished(fs: seq<TxFrame>, f: TxFrame)
    requires AllValid(Messages(fs)) && f.Valid()
    ensures f.ToMessage().Valid() && AllValid(Messages(fs + [f]))
    ensures EncodeAll(Messages(fs + [f])) == EncodeAll(Messages(fs)) + Encode(f.ToMessage())
  {
    assert (fs + [f])[..|fs|] == fs;
    hide AllValid, EncodeAll, Encode;
    EncodeAllSnoc(Messages(fs), f.ToMessage());
  }

  /** The part of a frame that has left while the rest has not. */
  function Partial(t: Tx): seq<byte> {
    if t.frame.Some? && t.pos < |t.wire| then t.wire[..t.pos] else []
  }

  /** What has left is the encodings of the frames that count as finished, but for `lost` bytes, and the partial one. */
  predicate Streams(w: World, lost: nat) {
    && AllValid(Messages(w.log.finished))
    && |w.log.out| == |EncodeAll(Messages(w.log.finished))| + |Partial(w.tx)| + lost
    && (lost == 0 ==> w.log.out == EncodeAll(Messages(w.log.finished)) + Partial(w.tx))
  }

  /** Bytes of a frame that an ack makes the transmitter give up half written. */
  function CutOff(w: World, h: Happening): nat {
    if h.Acked? then |Partial(w.tx)| else 0
  }

  /** A write completes what was partial, or leaves it longer. */
  lemma PartialGrows(t: Tx, count: nat)
    requires Sound(t) && Subject(t).Some?
    ensures var f, t', gone := Subject(t).value, OnWritable(t, count), GoneOnWritable(t, count);
      && f.Valid()
      && Partial(t) + gone
         == if t'.frame.None? || t'.pos == |t'.wire| then Encode(f.ToMessage()) else Partial(t')
  {
    var t1, t', gone := Ready(t), OnWritable(t, count), GoneOnWritable(t, count);
    ReadyIs(t);
    WriteTakes(t, count);
    hide Encode, Sound, OnWritable, GoneOnWritable, Ready, Subject;
    assert t.frame.None? ==> t1.wire[..0] == [];
    PrefixOn(t1.wire, t1.pos, gone);
    assert Partial(t) == t1.wire[..t1.pos];
  }

  lemma StreamJoins(out: seq<byte>, sent: seq<byte>, part: seq<byte>, gone: seq<byte>, sent': seq<byte>,
                    part': seq<byte>)
    requires sent' + part' == sent + (part + gone)
    ensures |out + gone| - |sent'| - |part'| == |out| - |sent| - |part|
    ensures out == sent + part ==> out + gone == sent' + part'
  {
    ConcatAssoc(sent, part, gone);
    assert |sent' + part'| == |sent + (part + gone)|;
  }

  /** A write that comes to the end of a frame. */
  lemma StreamEnds(w: World, w': World, f: TxFrame, gone: seq<byte>, lost: nat)
    requires Streams(w, lost) && f.Valid() && Partial(w.tx) + gone == Encode(f.ToMessage()) && Partial(w'.tx) == []
    requires w'.log.out == w.log.out + gone && w'.log.finished == w.log.finished + [f]
    ensures Streams(w', lost)
  {
    OneMoreFinished(w.log.finished, f);
    hide Encode, EncodeAll, AllValid, Messages, Partial;
    var sent, sent' := EncodeAll(Messages(w.log.finished)), EncodeAll(Messages(w'.log.finished));
    assert sent' + [] == sent';
    StreamJoins(w.log.out, sent, Partial(w.tx), gone, sent', []);
  }

  /** A write that does not. */
  lemma StreamGoesOn(w: World, w': World, gone: seq<byte>, lost: nat)
    requires Streams(w, lost) && Partial(w.tx) + gone == Partial(w'.tx)
    requires w'.log.out == w.log.out + gone && w'.log.finished == w.log.finished
    ensures Streams(w', lost)
  {
    hide EncodeAll, AllValid, Messages, Partial;
    var sent := EncodeAll(Messages(w.log.finished));
    StreamJoins(w.log.out, sent, Partial(w.tx), gone, sent, Partial(w'.tx));
  }

  lemma StreamWrite(w: World, count: nat, lost: nat)
    requires Sound(w.tx) && Streams(w, lost) && Possible(w, Wrote(count)) && Subject(w.tx).Some?
    ensures Streams(NextWorld(w, Wrote(count)), lost)
  {
    var f, w', gone := Subject(w.tx).value, NextWorld(w, Wrote(count)), GoneOnWritable(w.tx, count);
    WroteOut(w, count);
    PartialGrows(w.tx, count);
    hide Encode, Sound, OnWritable, GoneOnWritable, NextWorld, Possible, Subject, Streams;
    if w'.tx.frame.None? || w'.tx.pos == |w'.tx.wire| {
      StreamEnds(w, w', f, gone, lost);
    } else {
      StreamGoesOn(w, w', gone, lost);
    }
  }

  lemma StreamStep(w: World, h: Happening, lost: nat)
    requires Sound(w.tx) && Streams(w, lost) && Possible(w, h)
    ensures Streams(NextWorld(w, h), lost + CutOff(w, h))
  {
    hide EncodeAll, AllValid, Messages;
    var w' := NextWorld(w, h);
    if h.Wrote? {
      if Subject(w.tx).Some? {
        StreamWrite(w, h.count, lost);
      } else {
        WroteOut(w, h.count);
        NothingWritten(w.tx, h.count);
        assert w.log.out + [] == w.log.out;
        hide Sound, NextWorld, Possible, OnWritable, GoneOnWritable, Subject;
      }
    } else if h.TimedOut? {
      TimeoutChanges(w, h);
      hide Sound, NextWorld, Possible;
      assert Partial(w'.tx) == [];
    } else {
      OthersKeepOut(w, h);
      hide NextWorld, Possible;
    }
  }

  /** Every ack that comes in finds the frame in flight wholly written, or not begun. */
  predicate AcksWait(w: World, hs: seq<Happening>)
    requires Sound(w.tx) && TxTheorems.LegalRun(w, hs)
    decreases |hs|
  {
    hs == [] ||
      (CutOff(w, hs[0]) == 0 && (NextSound(w, hs[0]); AcksWait(NextWorld(w, hs[0]), hs[1..])))
  }

  lemma {:induction false} RunStreams(w: World, hs: seq<Happening>, lost: nat) returns (all: nat)
    requires Sound(w.tx) && Streams(w, lost) && TxTheorems.LegalRun(w, hs)
    ensures Streams(TxTheorems.After(w, hs), all)
    ensures lost <= all && (all == lost <==> AcksWait(w, hs))
    decreases |hs|
  {
    all := lost;
    if hs != [] {
      NextSound(w, hs[0]);
      StreamStep(w, hs[0], lost);
      hide Sound, Streams, NextWorld, Possible, CutOff;
      all := RunStreams(NextWorld(w, hs[0]), hs[1..], lost + CutOff(w, hs[0]));
    }
  }

  /** What has left by the port is the encodings of the frames written to the end, in the order in which they were, one
      for each time, followed by what has left of a frame half written, exactly if no ack came in while a frame was half
      written. */
  lemma StreamIff(hs: seq<Happening>)
    requires TxTheorems.LegalRun(GENESIS, hs)
    ensures var w := TxTheorems.After(GENESIS, hs);
      && AllValid(Messages(w.log.finished))
      && (w.log.out == EncodeAll(Messages(w.log.finished)) + Partial(w.tx) <==> AcksWait(GENESIS, hs))
  {
    assert Streams(GENESIS, 0);
    hide TxTheorems.LegalRun, TxTheorems.After, AcksWait, EncodeAll, AllValid, Messages;
    var all := RunStreams(GENESIS, hs, 0);
  }

  /** Whatever listens at the other end, reading in any pieces, gets exactly the messages of the frames written to the
      end, in order. */
  lemma OtherEndGets(hs: seq<Happening>, chunks: seq<seq<byte>>)
    requires TxTheorems.LegalRun(GENESIS, hs) && AcksWait(GENESIS, hs)
    requires var w := TxTheorems.After(GENESIS, hs); Partial(w.tx) == [] && Concat(chunks) == w.log.out
    ensures var got := Reads(IDLE, chunks);
      && got.rx == IDLE && AllWhole(got.frames)
      && MessagesIn(got.frames) == Messages(TxTheorems.After(GENESIS, hs).log.finished)
      && forall f :: f in got.frames ==> f[2] == 1
  {
    var ms := Messages(TxTheorems.After(GENESIS, hs).log.finished);
    StreamIff(hs);
    hide TxTheorems.LegalRun, TxTheorems.After, AcksWait, EncodeAll, AllValid, Messages, MessagesIn, AllWhole, Reads;
    assert EncodeAll(ms) + [] == EncodeAll(ms);
    RoundTrip(ms, chunks);
  }
}
