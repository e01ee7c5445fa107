/** From an application's call to the bus and back: what each end makes of what the other one sends. */
module Application {
  import opened Bytes
  import opened Frame
  import opened Encoding
  import opened OutputQueue
  import opened TxRuns
  import opened FrameHandler
  import opened FlagWord
  import opened NoteRegistry
  import opened NoteTargets
  import opened DeviceList
  import opened Ipc
  import opened Clients
  import opened Daemon
  import opened Sricd
  import S = Session
  import D = Delivery

  // ----- Requests -----

  /** A poll written by libsric is the poll that the daemon serves, whatever follows it in the socket. */
  lemma PollUnderstood(kind: byte, timeout: int, rest: seq<byte>, side: D.Side, said: seq<byte>, id: nat,
                       side': D.Side, left: seq<byte>, written: seq<byte>)
    requires -0x8000_0000 <= timeout < 0x8000_0000
    requires var input := PollCommand(kind, timeout) + rest;
      PollServed(side, input[1..], said, id, side', left, written)
    ensures (PollCommand(kind, timeout) + rest)[0] == kind && left == rest
    ensures var (next, replies) := D.Step(side, D.Poll(timeout, id));
      side' == next && written == said + AllBytes(replies)
  {
    var input := (PollCommand(kind, timeout) + rest)[1..];
    assert input == Be32(timeout) + rest;
    assert input[..4] == Be32(timeout) && input[4..] == rest;
    TimeoutRoundTrip(timeout);
    hide D.Step, Be32, OfBe32;
  }

  /** A flags command written by libsric registers those flags for that device, or is refused if there is none. */
  lemma FlagsUnderstood(c: Client, device: nat, flags: bv64, rest: seq<byte>, said: seq<byte>, written: seq<byte>,
                        junk: bv64, targets: seq<seq<Entry>>, targets': seq<seq<Entry>>, mask: Mask, mask': Mask,
                        types: seq<int>, wild: bv64)
    requires |targets| == |types| == ADDRESSES && device < ADDRESSES
    requires var input := FlagsCommand(device, flags) + rest;
      FlagsServed(c, input[1..], said, written, junk, targets, targets', mask, mask', types, wild)
    ensures (FlagsCommand(device, flags) + rest)[0] == SRICD_NOTE_FLAGS
    ensures if types[device] == NO_DEVICE then targets' == targets && written == said + [E_BADADDR]
            else targets' == targets[device := SetNotes(targets[device], c, flags)] && written == said + [E_SUCCESS]
  {
    var input := (FlagsCommand(device, flags) + rest)[1..];
    assert input == Be16(device) + FlagBytes(flags) + rest;
    assert input[0] == Be16(device)[0] && input[1] == Be16(device)[1] && input[2..10] == FlagBytes(flags);
    Be16RoundTrip(device);
    FlagsRoundTrip(flags);
    hide SetNotes, NewMask, FlagBytes, FlagsRead, Load, Be16, OfBe16;
    assert said + [] == said;
  }

  /** A frame that libsric is asked to send goes to the device with that address, with that payload, from the daemon; it
      is not taken for an ack, and its answer is waited for. */
  lemma SentReachesBus(k: nat, address: nat, payload: seq<byte>, rest: seq<byte>, left: seq<byte>, said: seq<byte>,
                       written: seq<byte>, w: World, w': World, id: nat, types: seq<int>)
    requires address < 0x80 && |payload| <= PAYLOAD_MAX
    requires var input := TxCommand(address, payload) + rest;
      TxServed(k, input[1..], left, said, written, w, w', id, types)
    ensures (TxCommand(address, payload) + rest)[0] == SRICD_TX && left == rest && address < |types|
    ensures if types[address] == NO_DEVICE then w' == w && written == said + [E_BADADDR]
            else
              var f := TxFrame(id, FRAME_SRIC, address, ClientTag(k), payload);
              && written == said + [E_SUCCESS] && Follows(w, Sent(k, f), w')
              && f.Valid() && !f.Unanswered()
              && var raw := Raw(f.ToMessage());
              WholeFrame(raw) && !IsAck(raw) && MessageIn(raw) == Message(FRAME_SRIC, address, payload)
  {
    TxRoundTrip(address, payload, rest);
    hide TxRead, Follows;
    var f := TxFrame(id, FRAME_SRIC, address, ClientTag(k), payload);
    RawReadBack(f.ToMessage());
    hide Raw;
  }

  // ----- What comes back -----

  /** A device's answer reaches the caller of sric_poll_rx with its sender and payload, as no note, and nothing is left
      over. */
  lemma ResponseReachesCaller(src: byte, payload: seq<byte>, rest: seq<byte>)
    requires |payload| <= PAYLOAD_MAX
    ensures var f := FrameFrom(src, 0x81, payload);
      && WholeFrame(f) && Accepts(f) && ForDaemon(f) && IsAck(f)
      && PollAnswer(ReplyBytes(D.Delivered(ForClients(f, 0))) + rest) == (Got(src % 0x80, 0, payload), rest)
  {
    ResponseReadBack(src, payload);
    PollRoundTrip(D.Delivered(D.RxFrame(src % 0x80, 1, 0, payload)), rest);
    hide FrameFrom, Accepts, PollAnswer, ReplyBytes, ForClients;
  }

  /** A device's note reaches the caller of sric_poll_note with its sender, number and payload. */
  lemma NoteReachesCaller(src: byte, payload: seq<byte>, rest: seq<byte>)
    requires 0 < |payload| <= PAYLOAD_MAX
    ensures var f := FrameFrom(src, 1, payload);
      && WholeFrame(f) && Accepts(f) && ForDaemon(f) && !IsAck(f) && NoteIn(f).Some?
      && PollAnswer(ReplyBytes(D.Delivered(NoteIn(f).value)) + rest) == (Got(src % 0x80, payload[0], payload), rest)
  {
    NoteIsAnswered(src, payload, 0);
    PollRoundTrip(D.Delivered(D.RxFrame(src % 0x80, 1, payload[0], payload)), rest);
    hide FrameFrom, Accepts, PollAnswer, ReplyBytes, NoteIn;
  }

  // ----- A client of the daemon is the daemon's end of a session -----

  /** A note pushed to a client is a note that arrives in its session: on that queue, by one reply at most. */
  lemma NotedIsArrival(c: State, s: S.Session, f: D.RxFrame)
    requires c.rx == s.responses && c.note == s.notes && f.Valid()
    ensures var c', s' := Noted(c, f), S.Next(s, S.Arrives(S.Notes, f));
      && c'.rx == s'.responses && c'.note == s'.notes && c'.inbox == c.inbox && c'.mask == c.mask
      && exists more :: c'.written == c.written + more && s'.unread == s.unread + more
  {
    var rs := D.Step(c.note, D.Push(f)).1;
    OneReply(rs);
    S.OnSideParts(s, S.Arrives(S.Notes, f));
    hide D.Step, S.Next, ReplyBytes;
    assert rs == [] ==> s.unread + [] == s.unread;
  }

  lemma AnsweredIsArrival(c: State, s: S.Session, f: D.RxFrame)
    requires c.rx == s.responses && c.note == s.notes && f.Valid()
    ensures var c', s' := Clients.Answered(c, f), S.Next(s, S.Arrives(S.Responses, f));
      && c'.rx == s'.responses && c'.note == s'.notes && c'.inbox == c.inbox && c'.mask == c.mask
      && exists more :: c'.written == c.written + more && s'.unread == s.unread + more
  {
    var rs := D.Step(c.rx, D.Push(f)).1;
    OneReply(rs);
    S.OnSideParts(s, S.Arrives(S.Responses, f));
    hide D.Step, S.Next, ReplyBytes;
    assert rs == [] ==> s.unread + [] == s.unread;
  }

  lemma OneReply(rs: seq<D.Reply>)
    ensures |rs| == 1 ==> AllBytes(rs) == ReplyBytes(rs[0])
    ensures rs == [] ==> AllBytes(rs) == []
  {
    if |rs| == 1 {
      BytesOfOne(rs[0]);
      assert rs == [rs[0]];
    }
  }
}
