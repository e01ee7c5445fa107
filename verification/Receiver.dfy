/** The receive side of sricd/sric-if.c: two fixed buffers updated in place. */
module Receiver {
  import opened Bytes
  import opened Crc16
  import opened Escape
  import opened Frame
  import opened Decoder
  import opened RxModel
  import opened Reception
  import opened Encoding
  import opened EndToEnd

  class SerialReceiver {
    const rxbuf: array<byte>
    var rxpos: nat
    const unescRx: array<byte>
    var unescPos: nat
    const crcTable: array<bv16>

    ghost predicate Shape()
      reads this, crcTable
    {
      && rxbuf != unescRx && rxbuf.Length == RXBUF_SIZE && unescRx.Length == CAPACITY
      && rxpos <= rxbuf.Length && unescPos <= unescRx.Length && IsTable(crcTable[..])
    }

    /** What holds between callbacks; in particular the next read always has room. */
    ghost predicate Valid()
      reads this, crcTable
    {
      Shape() && rxpos < rxbuf.Length
    }

    ghost function Abs(): Buffers
      reads this, rxbuf, unescRx
      requires rxpos <= rxbuf.Length && unescPos <= unescRx.Length
    {
      Buffers(unescRx[..unescPos], rxbuf[..rxpos])
    }

    /** rxbuf[0] is looked at even when rxbuf holds nothing; it is then no framing byte. */
    ghost predicate StaleByteHarmless()
      reads this, rxbuf
      requires rxbuf.Length == RXBUF_SIZE
    {
      rxpos == 0 ==> !IsFraming(rxbuf[0])
    }

    constructor ()
      ensures Valid() && Abs() == IDLE
      ensures fresh(rxbuf) && fresh(unescRx) && fresh(crcTable)
    {
      rxbuf := new byte[RXBUF_SIZE](_ => 0);
      rxpos := 0;
      unescRx := new byte[CAPACITY](_ => 0);
      unescPos := 0;
      var table := BuildTable();
      crcTable := table;
    }

    /** Loses the first n bytes of rxbuf. */
    method RxbufShift(n: nat)
      requires n <= rxpos <= rxbuf.Length
      modifies rxbuf, this`rxpos
      ensures rxpos == old(rxpos) - n
      ensures rxbuf[..rxpos] == old(rxbuf[n..rxpos])
      ensures rxpos == 0 ==> rxbuf[..] == old(rxbuf[..])
    {
      forall i | 0 <= i < rxpos - n {
        rxbuf[i] := rxbuf[i + n];
      }
      rxpos := rxpos - n;
    }

    /** Aligns rxbuf with the first framing byte in it, or empties it. */
    method RxbufShiftFrameStart() returns (found: bool)
      requires Shape() && rxpos <= rxbuf.Length
      modifies rxbuf, this`rxpos
      ensures rxpos <= old(rxpos) && Shape()
      ensures rxbuf[..rxpos] == SkipToFraming(old(rxbuf[..rxpos]))
      ensures found <==> rxpos > 0
    {
      var i := 0;
      while i < rxpos && !IsFraming(rxbuf[i])
        invariant 0 <= i <= rxpos
        invariant forall k :: 0 <= k < i ==> !IsFraming(rxbuf[k])
      {
        i := i + 1;
      }
      FrameStartIs(rxbuf[..rxpos], i);
      if i == rxpos {
        rxpos := 0;
        return false;
      }
      RxbufShift(i);
      found := true;
    }

    /** Moves the framing byte that starts the next frame across. */
    method OpenFrame() returns (found: bool)
      requires Shape()
      modifies rxbuf, unescRx, this`rxpos, this`unescPos
      ensures Shape()
      ensures var q := SkipToFraming(old(rxbuf[..rxpos]));
        if q == [] then !found && rxpos == 0 && unescPos == old(unescPos)
        else found && Abs() == Buffers([q[0]], q[1..])
    {
      found := RxbufShiftFrameStart();
      if found {
        unescRx[0] := rxbuf[0];
        unescPos := 1;
        RxbufShift(1);
      }
    }

    /** What rxbuf holds is unescaped behind the frame in progress; `spos` says how much of it that took. */
    method AppendUnescaped() returns (spos: nat, used: nat)
      requires Shape()
      modifies unescRx, this`unescPos
      ensures Shape()
      ensures var piece := Unescaped(rxbuf[..rxpos], CAPACITY - old(unescPos));
        && spos == piece.used && used == |piece.out| && unescRx[..unescPos] == old(unescRx[..unescPos]) + piece.out
    {
      assert crcTable as object != unescRx as object;
      hide Unescaped, IsTable;
      ghost var u := unescRx[..unescPos];
      spos, used := Unescape(rxbuf[..rxpos], unescRx, unescPos, unescRx.Length - unescPos);
      assert unescRx[..unescPos + used] == u + unescRx[unescPos..unescPos + used];
      unescPos := unescPos + used;
    }

    /** Unescapes from rxbuf into what is left of unesc_rx. */
    method FillRx() returns (more: bool)
      requires Shape()
      modifies rxbuf, unescRx, this`rxpos, this`unescPos
      ensures Shape()
      ensures Advanced(more, Abs()) == FillFrom(old(unescRx[..unescPos]), old(rxbuf[..rxpos]))
      ensures more ==> StaleByteHarmless()
    {
      assert crcTable as object != rxbuf as object;
      hide Unescaped, IsFraming, IsTable;
      ghost var p, room := rxbuf[..rxpos], CAPACITY - unescPos;
      var spos, used := AppendUnescaped();
      FirstByteUsed(p, room);
      RxbufShift(spos);
      more := used > 0;
    }

    /** Assembles as much of a frame as possible. */
    method AdvanceRx() returns (more: bool)
      requires Shape() && StaleByteHarmless()
      modifies rxbuf, unescRx, this`rxpos, this`unescPos
      ensures Shape()
      ensures Advanced(more, Abs()) == RxModel.AdvanceRx(old(Abs()))
      ensures more ==> StaleByteHarmless()
    {
      hide FillFrom, SkipToFraming, IsTable, IsFraming;
      ghost var r := Abs();
      if IsFraming(rxbuf[0]) || unescPos == unescRx.Length {
        unescPos := 0;
      }
      assert unescRx[..unescPos] == Restarted(r);
      if unescPos == 0 {
        var found := OpenFrame();
        if !found {
          return false;
        }
      }
      more := FillRx();
    }

    /** The bytes a read delivers are appended to rxbuf. */
    method ReadIncoming(bytes: seq<byte>)
      requires Shape() && 0 < |bytes| <= rxbuf.Length - rxpos
      modifies rxbuf, this`rxpos
      ensures Shape() && rxpos == old(rxpos) + |bytes|
      ensures rxbuf[..rxpos] == old(rxbuf[..rxpos]) + bytes
    {
      forall i | 0 <= i < |bytes| {
        rxbuf[rxpos + i] := bytes[i];
      }
      rxpos := rxpos + |bytes|;
    }

    /** Whether unesc_rx holds a complete frame with a matching CRC. */
    method FrameReady() returns (ready: bool)
      requires Shape()
      ensures ready <==> Accepts(unescRx[..unescPos])
    {
      ghost var u := unescRx[..unescPos];
      if unescPos < OVERHEAD {
        return false;
      }
      var len := unescRx[SRIC_LEN];
      if unescPos < OVERHEAD + len {
        return false;
      }
      var crc := TableCrc(crcTable, unescRx, HEADER_SIZE + len);
      var recv := Word(unescRx[SRIC_DATA + len], unescRx[SRIC_DATA + len + 1]);
      hide Word, Crc, IsTable;
      assert u[..HEADER_SIZE + len] == unescRx[..HEADER_SIZE + len];
      ready := crc == recv;
    }

    /** The frame handed to proc_rx_frame. */
    method TakeFrame() returns (frame: seq<byte>)
      requires Shape() && Accepts(unescRx[..unescPos])
      modifies this`unescPos
      ensures Shape() && unescPos == 0
      ensures frame == FrameOf(old(unescRx[..unescPos]))
    {
      frame := unescRx[..OVERHEAD + unescRx[SRIC_LEN]];
      assert frame == FrameOf(unescRx[..unescPos]);
      unescPos := 0;
    }

    /** The receive callback; `frames` lists the calls of proc_rx_frame. */
    method Rx(bytes: seq<byte>) returns (frames: seq<seq<byte>>)
      requires Valid() && 0 < |bytes| <= rxbuf.Length - rxpos
      modifies rxbuf, unescRx, this`rxpos, this`unescPos
      ensures Valid()
      ensures Drained(Abs(), frames) == Callback(old(Abs()), bytes)
    {
      hide Drain, RxModel.AdvanceRx, Accepts, FrameOf, IsTable, IsFraming;
      ghost var start := Buffers(unescRx[..unescPos], rxbuf[..rxpos] + bytes);
      frames := [];
      ReadIncoming(bytes);
      assert Abs() == start;
      DrainShrinks(start);
      while true
        invariant Shape() && StaleByteHarmless()
        invariant Drain(start) == Drained(Drain(Abs()).rx, frames + Drain(Abs()).frames)
        decreases rxpos
      {
        ghost var before := Abs();
        DrainStep(before);
        var more := AdvanceRx();
        if !more {
          assert frames + [] == frames;
          break;
        }
        ghost var now := Abs();
        var ready := FrameReady();
        if ready {
          ghost var rest := Drain(Buffers([], now.p));
          ConcatAssoc(frames, [FrameOf(now.u)], rest.frames);
          var frame := TakeFrame();
          assert Abs() == Buffers([], now.p);
          frames := frames + [frame];
        }
      }
    }

    /** The main loop's view: as long as input is waiting, the callback runs and its read takes some of it.
        The i-th read would take want(i) bytes if they are waiting and fit. */
    method Receive(stream: seq<byte>, want: nat -> nat)
      returns (frames: seq<seq<byte>>, ghost chunks: seq<seq<byte>>)
      requires Valid()
      modifies rxbuf, unescRx, this`rxpos, this`unescPos
      ensures Valid() && Concat(chunks) == stream
      ensures Drained(Abs(), frames) == Reads(old(Abs()), chunks)
    {
      hide Drain, IsTable, Concat, Reads;
      ghost var start := Abs();
      frames, chunks := [], [];
      var done, i := 0, 0;
      ReadsNone(start);
      while done < |stream|
        invariant Valid() && done <= |stream|
        invariant Concat(chunks) == stream[..done]
        invariant Drained(Abs(), frames) == Reads(start, chunks)
      {
        var n := 1 + Min(want(i), Min(|stream| - done, rxbuf.Length - rxpos) - 1);
        var bytes := stream[done..done + n];
        var more := Rx(bytes);
        ReadsSnoc(start, chunks, bytes);
        ConcatSnoc(chunks, bytes);
        assert stream[..done] + bytes == stream[..done + n];
        frames, chunks := frames + more, chunks + [bytes];
        done, i := done + n, i + 1;
      }
      assert stream[..done] == stream;
    }

    /** A fresh receiver delivers encoded frames, which read as the messages sent, in order, and is then empty again. */
    method ReceiveEncoded(ms: seq<Message>, want: nat -> nat) returns (frames: seq<seq<byte>>)
      requires Valid() && Abs() == IDLE && AllValid(ms)
      modifies rxbuf, unescRx, this`rxpos, this`unescPos
      ensures Valid() && frames == RawAll(ms) && AllWhole(frames) && MessagesIn(frames) == ms
      ensures rxpos == 0 && unescPos == 0
    {
      hide Concat, Reads, IsTable, EncodeAll, RawAll, AllWhole, MessagesIn;
      ghost var chunks;
      frames, chunks := Receive(EncodeAll(ms), want);
      RoundTrip(ms, chunks);
      assert Abs().u == [] && Abs().p == [];
    }
  }

  lemma DrainStep(r: Buffers)
    requires |r.u| <= CAPACITY
    ensures var a := RxModel.AdvanceRx(r);
      && |a.rx.u| <= CAPACITY && (a.more ==> |a.rx.p| < |r.p|)
      && Drain(r) == if !a.more then Drained(a.rx, [])
                     else if Accepts(a.rx.u) then
                       var d := Drain(Buffers([], a.rx.p));
                       Drained(d.rx, [FrameOf(a.rx.u)] + d.frames)
                     else Drain(a.rx)
  {
    AdvanceProgress(r);
    hide RxModel.AdvanceRx, Accepts, FrameOf;
  }

  lemma FirstByteUsed(p: seq<byte>, room: nat)
    ensures Unescaped(p, room).out != [] ==> p != [] && !IsFraming(p[0])
  {}
}
