/** Between the enumeration code and the transmitter: which frames the one queues with the other, and what that means
    when acks do not come in order (sricd/sric-enum.c, sricd/sric-if.c). */
module EnumLink {
  import opened Bytes
  import opened Encoding
  import opened EnumFsm
  import opened OutputQueue
  import opened TxModel
  import opened TxRuns

  // ----- Frames for messages -----

  /** Resets want no ack; everything else has the marker for a tag. */
  function FrameFor(m: Message, id: nat): TxFrame {
    TxFrame(id, m.kind, m.dest, if m == Reset() then NoTag else EnumTag, m.payload)
  }

  /** The frame queued for a message puts that very message on the wire, is waited for unless it is a reset, and is the
      enumeration code's. */
  lemma FrameCarries(m: Message, id: nat)
    requires m.Valid()
    ensures var f := FrameFor(m, id);
      && f.Valid() && f.id == id && f.ToMessage() == m && (f.tag == NoTag <==> m == Reset()) && FromEnumeration(f)
      && (f.Unanswered() <==> m == Reset() || m.dest >= 0x80)
  {}

  function FramesFor(ms: seq<Message>, id: nat): (fs: seq<TxFrame>)
    ensures |fs| == |ms| && forall i :: 0 <= i < |fs| ==> fs[i] == FrameFor(ms[i], id + i)
  {
    if ms == [] then [] else FramesFor(ms[..|ms| - 1], id) + [FrameFor(ms[|ms| - 1], id + |ms| - 1)]
  }

  lemma {:induction false} FramesCarry(ms: seq<Message>, id: nat)
    requires forall m :: m in ms ==> m.Valid()
    ensures Messages(FramesFor(ms, id)) == ms
    decreases |ms|
  {
    if ms != [] {
      var front, last := ms[..|ms| - 1], ms[|ms| - 1];
      assert forall m :: m in front ==> m in ms;
      assert last in ms;
      FramesCarry(front, id);
      FrameCarries(last, id + |ms| - 1);
      hide FrameFor;
      assert FramesFor(ms, id)[..|ms| - 1] == FramesFor(front, id);
    }
  }

  /** Only now does the transmitter hand an ack to the enumeration code. */
  predicate Consults(t: Tx) { t.frame.Some? && !t.cancelled && !t.enumerated }

  /** What an ack with contents r does to the transmitter, the enumeration code being in state e. */
  function AckOf(t: Tx, e: Enum, r: Reply, id: nat): Happening
    requires EnumFsm.WellFormed(e)
  {
    if Consults(t) then Acked(FramesFor(OnReply(e, r).sent, id), OnReply(e, r).e.state == Done) else Acked([], false)
  }

  /** What becomes of the enumeration code's state when an ack comes in. */
  function EnumAfter(t: Tx, e: Enum, r: Reply): Enum
    requires EnumFsm.WellFormed(e)
  {
    if Consults(t) then OnReply(e, r).e else e
  }

  lemma FramesPossible(ms: seq<Message>, id: nat)
    requires forall m :: m in ms ==> m.Valid()
    ensures FreshIds(FramesFor(ms, id), id) && AllFramesValid(FramesFor(ms, id))
    ensures forall f :: f in FramesFor(ms, id) ==> FromEnumeration(f)
  {
    forall f | f in FramesFor(ms, id) ensures f.Valid() && FromEnumeration(f) {
      var i :| 0 <= i < |ms| && FramesFor(ms, id)[i] == f;
      assert ms[i] in ms;
    }
  }

  lemma SentValid(e: Enum, r: Reply)
    requires EnumFsm.WellFormed(e)
    ensures forall m :: m in OnReply(e, r).sent ==> m.Valid()
  {
    hide AddedUpTo;
  }

  // ----- When enumeration ends -----

  lemma DoneIff(e: Enum, r: Reply)
    requires EnumFsm.WellFormed(e)
    ensures OnReply(e, r).e.state == Done <==>
      e.state == Done || (e.state == FetchingClasses && r.IsAck() && |r.payload| == 1 && r.From() != e.next
        && e.info == e.next)
  {
    hide AddedUpTo;
  }

  /** Frames that are no acks mean nothing to the enumeration code. */
  lemma OnlyAcksCount(e: Enum, r: Reply)
    requires EnumFsm.WellFormed(e) && !r.IsAck()
    ensures OnReply(e, r) == Reaction(e, [])
  {}

  /** The gateway's answer to whether it has the token: 0 means that a device has it and gets the next address, anything
      else that the gateway does. */
  lemma TokenAnswerMeans(e: Enum, dest: byte, src: byte, b: byte)
    requires EnumFsm.WellFormed(e) && e.state == Enumerating && dest >= 0x80 && e.next < DEVICE_HIGH_ADDRESS
    ensures var x := OnReply(e, Reply(dest, src, [b]));
      && x.sent == [AddrAssign(e.next)] && (x.e.state == SettingAddr <==> b == 0)
      && (x.e.state == SettingGwAddr <==> b != 0)
  {}

  /** The daemon gives up exactly when a device or the gateway is to have an address and there is none left. */
  lemma ExitedIff(e: Enum, r: Reply)
    requires EnumFsm.WellFormed(e)
    ensures OnReply(e, r).e.state == Exited <==>
      e.state == Exited || (e.state == Enumerating && r.IsAck() && |r.payload| == 1 && e.next == DEVICE_HIGH_ADDRESS)
  {
    hide AddedUpTo;
  }

  const ACK_FROM_2 := Reply(0x81, 2, [])
  const DATA_FROM_5 := Reply(0x81, 5, [7])

  lemma EarlyReplies(e: Enum)
    requires EnumFsm.WellFormed(e) && e.state == SettingGwAddr && e.next == 2
    ensures var x := OnReply(e, ACK_FROM_2);
      && x.sent == [UseToken(true), GenToken(), AddrInfo(2)] && x.e.state == FetchingClasses && EnumFsm.WellFormed(x.e)
      && OnReply(x.e, DATA_FROM_5).e.state == Done && OnReply(x.e, DATA_FROM_5).sent == []
  {
    hide AddedUpTo;
    assert ACK_FROM_2.From() == 2 && DATA_FROM_5.From() == 5;
  }

  /** On a bus with no devices, the gateway has just been given address 2. An ack from 2 and then one byte of data
      from 5 end enumeration with two of its frames still queued; the ack of the next one would be handed to the
      marker as if that were a client. */
  lemma EndsWithFramesQueued(t: Tx, e: Enum, id: nat)
    requires Sound(t) && Consults(t) && t.high == []
    requires EnumFsm.WellFormed(e) && e.state == SettingGwAddr && e.next == 2
    ensures var first := AckOf(t, e, ACK_FROM_2, id);
      && first.Acked? && !first.done && AllFramesValid(first.pushes)
      && var t1 := OnAck(t, first.pushes, first.done);
      && Sound(t1) && var t2 := OnWritable(t1, 200);
      && Sound(t2) && AwaitingAck(t2)
      && var e1 := OnReply(e, ACK_FROM_2).e;
      && EnumFsm.WellFormed(e1) && var second := AckOf(t2, e1, DATA_FROM_5, id + 3);
      && second == Acked([], true)
      && var t3 := OnAck(t2, [], true);
      && Sound(t3) && t3.high == FramesFor([UseToken(true), GenToken(), AddrInfo(2)], id)[1..]
      && Delivered(OnWritable(t3, 1)) == Some(EnumTag)
  {
    var ms := [UseToken(true), GenToken(), AddrInfo(2)];
    var fs := FramesFor(ms, id);
    EarlyReplies(e);
    FramesPossible(ms, id);
    assert fs[0].tag == EnumTag && fs[1].tag == EnumTag && fs[0].address == 1;
    assert FramesFor([], id + 3) == [];
    hide OnReply, AllFramesValid, FramesFor, OnAck, OnWritable, Sound, Delivered;
    AckInstalls(t, fs, false);
    var t1 := OnAck(t, fs, false);
    WholeWrite(t1, 200);
    var t2 := OnWritable(t1, 200);
    AckInstalls(t2, [], true);
    var t3 := OnAck(t2, [], true);
    assert fs[1..] + [] == fs[1..] && [] + fs == fs;
    MarkerNext(t3, fs[1]);
  }

  lemma AckInstalls(t: Tx, fs: seq<TxFrame>, done: bool)
    requires Sound(t) && Consults(t) && AllFramesValid(fs)
    ensures var t' := OnAck(t, fs, done);
      Sound(t') && t'.high == t.high + fs && t'.frame == None && t'.watch && t'.enumerated == done
  {
    AckSound(t, fs, done);
    hide Sound, AllFramesValid;
  }

  lemma WholeWrite(t: Tx, count: nat)
    requires Sound(t) && t.frame == None && t.high != [] && t.watch && count >= 140
    requires !t.high[0].Unanswered()
    ensures var t' := OnWritable(t, count);
      Sound(t') && AwaitingAck(t') && t'.frame == Some(t.high[0]) && t'.high == t.high[1..] && t'.cancelled == false
      && t'.enumerated == t.enumerated
  {
    StepSound(t, Writable(count));
    assert t.high[0] in t.high;
    EncodeFits(t.high[0].ToMessage());
    hide AllFramesValid;
  }

  lemma MarkerNext(t: Tx, f: TxFrame)
    requires Sound(t) && t.enumerated && t.frame == None && t.high != [] && t.high[0] == f && f.tag == EnumTag
    ensures Delivered(OnWritable(t, 1)) == Some(EnumTag)
  {
    assert f in t.high;
    EncodeFits(f.ToMessage());
    hide AllFramesValid;
  }
}
