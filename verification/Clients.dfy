/** A client of the daemon (sricd/client.c and its side of sricd/ipc.c). */
module Clients {
  import opened Bytes
  import opened NoteRegistry
  import D = Delivery
  import opened Ipc

  type RxFrame = D.RxFrame

  lemma BytesOfOne(r: D.Reply)
    ensures AllBytes([r]) == ReplyBytes(r)
  {
    assert [r][1..] == [];
    assert ReplyBytes(r) + [] == ReplyBytes(r);
  }

  /** Everything that a client record holds. */
  datatype State = State(rx: D.Side, note: D.Side, mask: Mask, inbox: seq<byte>, written: seq<byte>)

  /** A client after a note was pushed to it. */
  function Noted(s: State, note: RxFrame): State {
    var (side, replies) := D.Step(s.note, D.Push(note));
    s.(note := side, written := s.written + AllBytes(replies))
  }

  /** A client after a response was pushed to it. */
  function Answered(s: State, rx: RxFrame): State {
    var (side, replies) := D.Step(s.rx, D.Push(rx));
    s.(rx := side, written := s.written + AllBytes(replies))
  }

  /** What a poll whose timeout is yet to be read does to one side of a client: a short read is answered with
      BADREQUEST; `id` is what glib would call a new timer. */
  predicate PollServed(side: D.Side, input: seq<byte>, said: seq<byte>, id: nat, side': D.Side, left: seq<byte>,
                       written: seq<byte>) {
    if |input| < 4 then side' == side && left == [] && written == said + [E_BADREQUEST]
    else
      var (next, replies) := D.Step(side, D.Poll(OfBe32(input[..4]), id));
      side' == next && left == input[4..] && written == said + AllBytes(replies)
  }

  /** Queues are listed oldest first. `inbox` holds the bytes received from the client and not yet read,
      `written` everything sent to it; the timer sets are the live glib sources. */
  class Client {
    var rxQueue: seq<RxFrame>
    var noteQueue: seq<RxFrame>
    var rxPing: bool
    var notePing: bool
    var rxTimer: nat
    var noteTimer: nat
    var rxTimers: set<nat>
    var noteTimers: set<nat>
    var mask: Mask
    var inbox: seq<byte>
    var written: seq<byte>

    constructor (bytes: seq<byte>)
      ensures RxSide() == D.EMPTY && NoteSide() == D.EMPTY
      ensures mask == Mask(0, 0) && inbox == bytes && written == []
    {
      rxQueue, noteQueue, rxPing, notePing := [], [], false, false;
      rxTimer, noteTimer, rxTimers, noteTimers := 0, 0, {}, {};
      mask, inbox, written := Mask(0, 0), bytes, [];
    }

    function RxSide(): D.Side
      reads this
    {
      D.Side(rxQueue, rxPing, rxTimers, rxTimer)
    }

    function NoteSide(): D.Side
      reads this
    {
      D.Side(noteQueue, notePing, noteTimers, noteTimer)
    }

    function Snapshot(): State
      reads this
    {
      State(RxSide(), NoteSide(), mask, inbox, written)
    }

    // ----- Socket -----

    /** A read of fewer bytes than asked for is a failure, but what was there is gone. */
    method ReadData(length: nat) returns (data: Option<seq<byte>>)
      modifies this`inbox
      ensures |old(inbox)| >= length ==> data == Some(old(inbox)[..length]) && inbox == old(inbox)[length..]
      ensures |old(inbox)| < length ==> data == None && inbox == []
    {
      if |inbox| >= length {
        data := Some(inbox[..length]);
        inbox := inbox[length..];
      } else {
        data := None;
        inbox := [];
      }
    }

    method WriteResult(result: byte)
      modifies this`written
      ensures written == old(written) + [result]
    {
      written := written + [result];
    }

    /** A header of seven bytes, then the payload. */
    method SendRx(rx: RxFrame)
      modifies this`written
      ensures written == old(written) + ReplyBytes(D.Delivered(rx))
    {
      var header: seq<byte> := [E_SUCCESS, 0, rx.source, rx.note / 256, rx.note % 256, 0, |rx.payload| % 256];
      ghost var before := written;
      written := written + header;
      written := written + rx.payload;
      ConcatAssoc(before, header, rx.payload);
    }

    // ----- Responses -----

    method PopRx() returns (rx: Option<RxFrame>)
      modifies this`rxQueue
      ensures old(rxQueue) == [] ==> rx == None && rxQueue == []
      ensures old(rxQueue) != [] ==> rx == Some(old(rxQueue)[0]) && rxQueue == old(rxQueue)[1..]
    {
      if rxQueue == [] {
        rx := None;
      } else {
        rx, rxQueue := Some(rxQueue[0]), rxQueue[1..];
      }
    }

    method RxPing()
      requires rxQueue != []
      modifies this`rxQueue, this`rxPing, this`rxTimer, this`rxTimers, this`written
      ensures RxSide() == D.Ping(old(RxSide()))
      ensures written == old(written) + ReplyBytes(D.Delivered(old(rxQueue)[0]))
    {
      if rxTimer != 0 {
        rxTimers := rxTimers - {rxTimer};
        rxTimer := 0;
      }
      rxPing := false;
      var rx := PopRx();
      SendRx(rx.value);
    }

    method PushRx(rx: RxFrame)
      modifies this`rxQueue, this`rxPing, this`rxTimer, this`rxTimers, this`written
      ensures Snapshot() == Answered(old(Snapshot()), rx)
    {
      rxQueue := rxQueue + [rx];
      BytesOfOne(D.Delivered(rxQueue[0]));
      if rxPing {
        RxPing();
      } else {
        assert AllBytes([]) == [];
      }
    }

    /** timeout_callback; the frames that it also takes off the transmit queue are OutputQueue's business. */
    method RxTimeout(id: nat)
      requires id in rxTimers
      modifies this`rxTimer, this`rxTimers, this`written
      ensures var (side, replies) := D.Step(old(RxSide()), D.Expire(id));
        RxSide() == side && written == old(written) + AllBytes(replies)
    {
      BytesOfOne(D.TimedOut);
      WriteResult(E_TIMEOUT);
      rxTimer := 0;
      rxTimers := rxTimers - {id};
    }

    /** The poll that is already off the socket except for its timeout; id is what glib would call a new timer. */
    method PollRx(timeout: int, id: nat)
      requires id != 0 && id !in rxTimers
      modifies this`rxQueue, this`rxPing, this`rxTimer, this`rxTimers, this`written
      ensures var (side, replies) := D.Step(old(RxSide()), D.Poll(timeout, id));
        RxSide() == side && written == old(written) + AllBytes(replies)
    {
      BytesOfOne(D.TimedOut);
      assert AllBytes([]) == [];
      var rx := PopRx();
      if rx.Some? {
        BytesOfOne(D.Delivered(rx.value));
        SendRx(rx.value);
      } else if timeout == 0 {
        WriteResult(E_TIMEOUT);
      } else {
        if timeout != -1 {
          rxTimer, rxTimers := id, rxTimers + {id};
        }
        rxPing := true;
      }
    }

    /** handle_poll_rx */
    method HandlePollRx(id: nat)
      requires id != 0 && id !in rxTimers
      modifies this`rxQueue, this`rxPing, this`rxTimer, this`rxTimers, this`written, this`inbox
      ensures PollServed(old(RxSide()), old(inbox), old(written), id, RxSide(), inbox, written)
    {
      var data := ReadData(4);
      if data == None {
        WriteResult(E_BADREQUEST);
        return;
      }
      hide D.Step;
      PollRx(OfBe32(data.value), id);
    }

    // ----- Notes -----

    method PopNote() returns (note: Option<RxFrame>)
      modifies this`noteQueue
      ensures old(noteQueue) == [] ==> note == None && noteQueue == []
      ensures old(noteQueue) != [] ==> note == Some(old(noteQueue)[0]) && noteQueue == old(noteQueue)[1..]
    {
      if noteQueue == [] {
        note := None;
      } else {
        note, noteQueue := Some(noteQueue[0]), noteQueue[1..];
      }
    }

    method NotePing()
      requires noteQueue != []
      modifies this`noteQueue, this`notePing, this`noteTimer, this`noteTimers, this`written
      ensures NoteSide() == D.Ping(old(NoteSide()))
      ensures written == old(written) + ReplyBytes(D.Delivered(old(noteQueue)[0]))
    {
      if noteTimer != 0 {
        noteTimers := noteTimers - {noteTimer};
        noteTimer := 0;
      }
      notePing := false;
      var note := PopNote();
      SendRx(note.value);
    }

    method PushNote(note: RxFrame)
      modifies this`noteQueue, this`notePing, this`noteTimer, this`noteTimers, this`written
      ensures Snapshot() == Noted(old(Snapshot()), note)
    {
      noteQueue := noteQueue + [note];
      BytesOfOne(D.Delivered(noteQueue[0]));
      if notePing {
        NotePing();
      } else {
        assert AllBytes([]) == [];
      }
    }

    method NoteTimeout(id: nat)
      requires id in noteTimers
      modifies this`noteTimer, this`noteTimers, this`written
      ensures var (side, replies) := D.Step(old(NoteSide()), D.Expire(id));
        NoteSide() == side && written == old(written) + AllBytes(replies)
    {
      BytesOfOne(D.TimedOut);
      WriteResult(E_TIMEOUT);
      noteTimer := 0;
      noteTimers := noteTimers - {id};
    }

    method PollNote(timeout: int, id: nat)
      requires id != 0 && id !in noteTimers
      modifies this`noteQueue, this`notePing, this`noteTimer, this`noteTimers, this`written
      ensures var (side, replies) := D.Step(old(NoteSide()), D.Poll(timeout, id));
        NoteSide() == side && written == old(written) + AllBytes(replies)
    {
      BytesOfOne(D.TimedOut);
      assert AllBytes([]) == [];
      var note := PopNote();
      if note.Some? {
        BytesOfOne(D.Delivered(note.value));
        SendRx(note.value);
      } else if timeout == 0 {
        WriteResult(E_TIMEOUT);
      } else {
        if timeout != -1 {
          noteTimer, noteTimers := id, noteTimers + {id};
        }
        notePing := true;
      }
    }

    /** handle_poll_note */
    method HandlePollNote(id: nat)
      requires id != 0 && id !in noteTimers
      modifies this`noteQueue, this`notePing, this`noteTimer, this`noteTimers, this`written, this`inbox
      ensures PollServed(old(NoteSide()), old(inbox), old(written), id, NoteSide(), inbox, written)
    {
      var data := ReadData(4);
      if data == None {
        WriteResult(E_BADREQUEST);
        return;
      }
      hide D.Step;
      PollNote(OfBe32(data.value), id);
    }
  }
}
