/** Responses only ever go to clients that are still connected. */
module ClientSafety {
  import opened Bytes
  import opened Encoding
  import opened OutputQueue
  import opened TxModel
  import opened TxRuns
  import opened TxTheorems

  /** A tag on a frame is null, a connected client, or (while enumerating) the enumeration marker. */
  predicate TagFine(w: World, tag: Tag) {
    match tag
    case NoTag => true
    case EnumTag => !w.tx.enumerated
    case ClientTag(c) => c in w.live
  }

  predicate QueueFine(w: World, q: seq<TxFrame>) {
    forall f :: f in q ==> TagFine(w, f.tag)
  }

  /** Every queued frame's client is connected; the client of the frame in flight is, or the frame
      is cancelled. */
  predicate TagsFine(w: World) {
    && QueueFine(w, w.tx.high) && QueueFine(w, w.tx.low)
    && (forall f :: f in w.tx.low ==> f.tag.ClientTag?)
    && (w.tx.frame.Some? ==> w.tx.cancelled || TagFine(w, w.tx.frame.value.tag))
    && w.live <= w.known && (!w.tx.enumerated ==> w.live == {})
  }

  /** Acks come in order: none while an untagged frame is half written, and none completes the
      enumeration while one of its frames is still queued. */
  predicate Orderly(w: World, h: Happening) {
    h.Acked? && w.tx.frame.Some? && !w.tx.cancelled ==>
      && w.tx.frame.value.tag != NoTag
      && (!w.tx.enumerated && h.done ==> forall f :: f in w.tx.high + h.pushes ==> f.tag != EnumTag)
  }

  lemma TagsWrite(w: World, h: Happening)
    requires Sound(w.tx) && Possible(w, h) && TagsFine(w) && h.Wrote?
    ensures TagsFine(NextWorld(w, h))
  {
    hide Sound, Possible, NextWorld, NextLog, ToEvent, Removed;
    WriteChanges(w, h);
    WriteKeepsCancelled(w, h);
    WriteKeepsMode(w, h);
    var t, w' := w.tx, NextWorld(w, h);
    assert t.frame.None? && t.high != [] ==> t.high[0] in t.high;
    assert t.frame.None? && t.high == [] && Subject(t).Some? ==> t.low[0] in t.low;
    assert forall f :: f in w'.tx.high ==> f in t.high;
    assert forall f :: f in w'.tx.low ==> f in t.low;
  }

  lemma WriteKeepsMode(w: World, h: Happening)
    requires Sound(w.tx) && Possible(w, h) && h.Wrote?
    ensures var w' := NextWorld(w, h);
      w'.tx.enumerated == w.tx.enumerated && w'.live == w.live && w'.known == w.known
  {
    hide AllFramesValid, Encode, NextLog, Watched, OneTimer;
  }

  lemma TagsAck(w: World, h: Happening)
    requires Sound(w.tx) && Possible(w, h) && TagsFine(w) && Orderly(w, h) && h.Acked?
    ensures TagsFine(NextWorld(w, h))
  {
    hide Sound, WellFormed, NextLog, Enabled;
    var w' := NextWorld(w, h);
    assert w'.tx == OnAck(w.tx, h.pushes, h.done);
    assert forall f :: f in w.tx.high + h.pushes <==> f in w.tx.high || f in h.pushes;
  }

  lemma TagsPush(w: World, h: Happening)
    requires Sound(w.tx) && Possible(w, h) && TagsFine(w) && (h.Sent? || h.Responded? || h.Enumerated?)
    ensures TagsFine(NextWorld(w, h))
  {
    hide Sound, WellFormed, NextLog, Enabled;
  }

  lemma TagsCancel(w: World, h: Happening)
    requires Sound(w.tx) && Possible(w, h) && TagsFine(w) && (h.PollTimedOut? || h.Died?)
    ensures TagsFine(NextWorld(w, h))
  {
    hide Sound, WellFormed, NextLog, Enabled, Without;
    var w' := NextWorld(w, h);
    assert w'.tx == OnCancel(w.tx, ClientTag(h.client));
  }

  lemma TagsStep(w: World, h: Happening)
    requires Sound(w.tx) && Possible(w, h) && TagsFine(w) && Orderly(w, h)
    ensures TagsFine(NextWorld(w, h))
  {
    match h
    case Sent(_, _) => TagsPush(w, h);
    case Responded(_) => TagsPush(w, h);
    case Enumerated(_) => TagsPush(w, h);
    case Wrote(_) => TagsWrite(w, h);
    case TimedOut(_) => hide NextLog, WellFormed;
    case Acked(_, _) => TagsAck(w, h);
    case Connected(_) => hide Sound, WellFormed, NextLog;
    case PollTimedOut(_) => TagsCancel(w, h);
    case Died(_) => TagsCancel(w, h);
  }

  predicate OrderlyRun(w: World, hs: seq<Happening>)
    requires Sound(w.tx) && LegalRun(w, hs)
    decreases |hs|
  {
    hs == [] || (Orderly(w, hs[0]) && (NextSound(w, hs[0]); OrderlyRun(NextWorld(w, hs[0]), hs[1..])))
  }

  lemma {:induction false} RunTags(w: World, hs: seq<Happening>)
    requires Sound(w.tx) && LegalRun(w, hs) && OrderlyRun(w, hs) && TagsFine(w)
    ensures TagsFine(After(w, hs))
    decreases |hs|
  {
    if hs != [] {
      TagsStep(w, hs[0]);
      NextSound(w, hs[0]);
      hide TagsFine, Possible, NextWorld, Orderly, Sound;
      RunTags(NextWorld(w, hs[0]), hs[1..]);
    }
  }

  /** After any orderly run, the tag an ack hands its response to is a connected client
      unless it is null. */
  lemma NoReplyToTheDead(hs: seq<Happening>)
    requires LegalRun(GENESIS, hs) && OrderlyRun(GENESIS, hs)
    ensures var w := After(GENESIS, hs);
      Delivered(w.tx).Some? && Delivered(w.tx) != Some(NoTag) ==>
        Delivered(w.tx).value.ClientTag? && Delivered(w.tx).value.client in w.live
    ensures var w := After(GENESIS, hs);
      forall f :: f in w.tx.high || f in w.tx.low ==> f.tag.ClientTag? ==> f.tag.client in w.live
  {
    assert TagsFine(GENESIS);
    hide After, LegalRun, OrderlyRun;
    RunTags(GENESIS, hs);
  }

  /** After an orderly run, the response of the next ack goes to a connected client exactly when
      that ack is orderly too. */
  lemma AckReachesLiveClient(hs: seq<Happening>, pushes: seq<TxFrame>, done: bool)
    requires LegalRun(GENESIS, hs) && OrderlyRun(GENESIS, hs)
    ensures var w := After(GENESIS, hs);
      Delivered(w.tx).Some? ==>
        (Delivered(w.tx).value.ClientTag? && Delivered(w.tx).value.client in w.live <==>
         Orderly(w, Acked(pushes, done)))
  {
    hide After, LegalRun, OrderlyRun;
    NoReplyToTheDead(hs);
  }

  // ----- Why acks have to be orderly -----

  /** An ack that arrives while an untagged frame is half written is handed to the null tag. */
  lemma EarlyAckHasNoClient(t: Tx, f: TxFrame)
    requires Sound(t) && t.enumerated && t.frame.None? && t.high == [] && f.Valid() && f.tag == NoTag
    ensures Sound(OnPush(t, f, 0)) && Delivered(OnWritable(OnPush(t, f, 0), 1)) == Some(NoTag)
  {
    PushSound(t, f, 0);
    EncodeFits(f.ToMessage());
    assert [f][0] == f;
    hide AllFramesValid;
  }

  /** An enumeration frame still queued when enumeration completes gets its ack handed to the marker. */
  lemma LeftoverHasNoClient(t: Tx, f: TxFrame)
    requires Sound(t) && !t.enumerated && t.frame.Some? && !t.cancelled && t.high == [f] && f.tag == EnumTag
    ensures Sound(OnAck(t, [], true)) && Delivered(OnWritable(OnAck(t, [], true), 1)) == Some(EnumTag)
  {
    AckSound(t, [], true);
    assert f in t.high;
    EncodeFits(f.ToMessage());
    assert t.high + [] == t.high;
    hide AllFramesValid;
  }
}
