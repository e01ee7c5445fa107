/** The transmit side of sricd/sric-if.c: a fixed output buffer and the callbacks that change it. */
module Transmitter {
  import opened Bytes
  import opened Crc16
  import opened Escape
  import opened Frame
  import opened Encoding
  import opened OutputQueue
  import opened TxModel

  const TXBUF_SIZE := 2 * (OVERHEAD + PAYLOAD_MAX)

  /** `port` is everything that has been written to the serial port. */
  class SerialTransmitter {
    const txq: TxQueue
    var txFrame: Option<TxFrame>
    const txbuf: array<byte>
    var txlen: nat
    var txpos: nat
    var writeWatch: bool
    var timers: set<nat>
    var retxmitTimeoutId: nat
    var nextSource: nat
    var enumerated: bool
    var frameCancelled: bool
    var port: seq<byte>
    const crcTable: array<bv16>

    ghost predicate TablesReady()
      reads crcTable
    {
      txbuf.Length == TXBUF_SIZE && IsTable(crcTable[..]) && (crcTable as object) != txbuf
    }

    ghost predicate Valid()
      reads this, txq, txbuf, crcTable
    {
      && TablesReady() && txpos <= txlen <= txbuf.Length
      && AllFramesValid(txq.high) && AllFramesValid(txq.low)
    }

    ghost function Abs(): Tx
      reads this, txq, txbuf
      requires txlen <= txbuf.Length
    {
      Tx(txq.high, txq.low, txFrame, txbuf[..txlen], txpos, writeWatch, timers, retxmitTimeoutId, nextSource,
         enumerated, frameCancelled)
    }

    constructor ()
      ensures Valid() && Abs() == START && port == []
      ensures fresh(txq) && fresh(txbuf) && fresh(crcTable)
    {
      txq := new TxQueue();
      txFrame := None;
      txbuf := new byte[TXBUF_SIZE](_ => 0);
      txlen, txpos := 0, 0;
      writeWatch, timers, retxmitTimeoutId, nextSource := false, {}, 0, 1;
      enumerated, frameCancelled, port := false, false, [];
      var table := BuildTable();
      crcTable := table;
    }

    /** Puts header, payload and CRC into txbuf, unstuffed. */
    method BuildRaw(m: Message)
      requires m.Valid() && TablesReady()
      modifies txbuf
      ensures txbuf[..|Raw(m)|] == Raw(m)
      ensures TablesReady()
    {
      var len := |m.payload|;
      txbuf[0] := m.kind;
      txbuf[SRIC_DEST] := m.dest;
      txbuf[SRIC_SRC] := 1;
      txbuf[SRIC_LEN] := len;
      Write(txbuf, SRIC_DATA, m.payload);
      assert txbuf[..HEADER_SIZE + len] == txbuf[..HEADER_SIZE] + txbuf[HEADER_SIZE..HEADER_SIZE + len];
      ghost var body := Body(m);
      assert txbuf[..HEADER_SIZE + len] == body;
      hide Crc, Low, High, IsTable, Body;
      var crc := TableCrc(crcTable, txbuf, HEADER_SIZE + len);
      Write(txbuf, SRIC_DATA + len, [Low(crc), High(crc)]);
      assert txbuf[..OVERHEAD + len] == body + [Low(crc), High(crc)];
    }

    /** Builds the frame in the output buffer and stuffs it in place. */
    method BuildFrame(m: Message)
      requires m.Valid() && TablesReady()
      modifies txbuf, this`txlen, this`txpos
      ensures txlen <= txbuf.Length && txbuf[..txlen] == Encode(m) && txpos == 0
      ensures TablesReady()
    {
      hide Crc, IsTable, Escaped;
      BuildRaw(m);
      ghost var raw := Raw(m);
      EncodeFits(m);
      assert txbuf[1..|raw|] == raw[1..];
      var esclen := EscapeFrame(txbuf, 1, OVERHEAD - 1 + |m.payload|, txbuf.Length - 1);
      assert esclen > 0;
      txlen := esclen + 1;
      txpos := 0;
      assert txbuf[..txlen] == [txbuf[0]] + txbuf[1..txlen];
    }

    /** Sets up the next frame for transmission, if there is one that may be sent. */
    method NextTx() returns (ready: bool)
      requires Valid() && txFrame.None?
      modifies this`txFrame, this`txlen, this`txpos, this`frameCancelled, txq, txbuf
      ensures Valid()
      ensures ready <==> Eligible(old(Abs()))
      ensures Abs() == if Eligible(old(Abs())) then TxModel.NextTx(old(Abs())) else old(Abs())
    {
      hide Encode, IsTable;
      QueueHeads(txq.high, txq.low);
      txFrame := txq.Next(if enumerated then 1 else 0);
      if txFrame.None? {
        return false;
      }
      frameCancelled := false;
      BuildFrame(txFrame.value.ToMessage());
      ready := true;
    }

    /** The write callback: `count` is how much the port would take. Returns whether the watch stays. */
    method IfTx(count: nat) returns (stay: bool)
      requires Valid() && writeWatch
      modifies this, txq, txbuf
      ensures Valid() && stay == writeWatch
      ensures Abs() == OnWritable(old(Abs()), count) && port == old(port) + GoneOnWritable(old(Abs()), count)
    {
      hide Encode, IsTable, AllFramesValid;
      assert port + [] == port;
      ghost var t := Abs();
      if txFrame.Some? && txpos == txlen {
        writeWatch := false;
        return false;
      }
      if txFrame.None? {
        var ready := NextTx();
        if !ready {
          writeWatch := false;
          return false;
        }
      }
      ghost var t1 := Abs();
      assert OnWritable(t, count) == Written(t1, count) && GoneOnWritable(t, count) == Gone(t1, count);
      hide OnWritable, TxModel.NextTx, GoneOnWritable;
      stay := WriteOut(count);
    }

    /** Writes what the port takes; when that was all, either moves on or arms the timer. */
    method WriteOut(count: nat) returns (stay: bool)
      requires Valid() && writeWatch && txFrame.Some?
      modifies this
      ensures Valid() && stay == writeWatch
      ensures Abs() == Written(old(Abs()), count) && port == old(port) + Gone(old(Abs()), count)
    {
      hide IsTable, AllFramesValid;
      var w := Min(count, txlen - txpos);
      assert txbuf[..txlen][txpos..txpos + w] == txbuf[txpos..txpos + w];
      port := port + txbuf[txpos..txpos + w];
      txpos := txpos + w;
      if txpos != txlen {
        return true;
      }
      if txFrame.value.Unanswered() {
        txFrame := None;
        return true;
      }
      retxmitTimeoutId := nextSource;
      timers := timers + {nextSource};
      nextSource := nextSource + 1;
      writeWatch := false;
      stay := false;
    }

    method TxReady()
      requires Valid()
      modifies this`writeWatch
      ensures Valid() && writeWatch
    {
      if !writeWatch {
        writeWatch := true;
      }
    }

    /** The retransmission timer `id` fired; returning false ends it. */
    method TxTimeout(id: nat)
      requires Valid() && id in timers
      modifies this`txFrame, this`txpos, this`writeWatch, this`timers
      ensures Valid() && Abs() == OnExpire(old(Abs()), id)
    {
      if frameCancelled {
        txFrame := None;
      }
      txpos := 0;
      TxReady();
      timers := timers - {id};
    }

    method PushAll(fs: seq<TxFrame>)
      requires Valid() && AllFramesValid(fs) && writeWatch
      modifies this`writeWatch, txq
      ensures Valid() && writeWatch && txq.high == old(txq.high) + fs && txq.low == old(txq.low)
    {
      ghost var high := txq.high;
      var i := 0;
      assert high + fs[..0] == high;
      while i < |fs|
        invariant 0 <= i <= |fs|
        invariant Valid() && writeWatch
        invariant txq.high == high + fs[..i] && txq.low == old(txq.low)
      {
        TxqPush(fs[i], 0);
        assert fs[..i + 1] == fs[..i] + [fs[i]];
        i := i + 1;
      }
      assert fs[..i] == fs;
    }

    /** What proc_rx_frame does with an ack for sricd. While enumerating, the enumeration code answers it
        by pushing frames and saying whether it is done; afterwards the response goes to the sender. */
    method AckReceived(pushes: seq<TxFrame>, done: bool) returns (client: Option<Tag>)
      requires Valid() && AllFramesValid(pushes)
      modifies this`txFrame, this`writeWatch, this`timers, this`retxmitTimeoutId, this`enumerated, txq
      ensures Valid() && Abs() == OnAck(old(Abs()), pushes, done)
      ensures client == Delivered(old(Abs()))
    {
      client := None;
      if txFrame.None? {
        return;
      }
      timers := timers - {retxmitTimeoutId};
      retxmitTimeoutId := 0;
      TxReady();
      if frameCancelled {
        txFrame := None;
        return;
      }
      if !enumerated {
        PushAll(pushes);
        if done {
          enumerated := true;
        }
      } else {
        client := Some(txFrame.value.tag);
      }
      txFrame := None;
    }

    method TxqPush(f: TxFrame, pri: nat)
      requires Valid() && f.Valid() && pri < 2
      modifies this`writeWatch, txq
      ensures Valid() && Abs() == OnPush(old(Abs()), f, pri)
    {
      txq.PushHead(f, pri);
      TxReady();
    }

    /** txq_cancel and the sric_if_cancel it ends with. */
    method TxqCancel(tag: Tag)
      requires Valid()
      modifies this`frameCancelled, txq
      ensures Valid() && Abs() == OnCancel(old(Abs()), tag)
    {
      txq.Cancel(tag);
      if txFrame.None? || txFrame.value.tag != tag {
        return;
      }
      frameCancelled := true;
    }
  }

  lemma QueueHeads(high: seq<TxFrame>, low: seq<TxFrame>)
    requires AllFramesValid(high) && AllFramesValid(low)
    ensures high != [] ==> high[0].Valid() && AllFramesValid(high[1..])
    ensures low != [] ==> low[0].Valid() && AllFramesValid(low[1..])
  {}
}
