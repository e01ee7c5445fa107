/** What next_tx puts on the wire for one frame, and that the reference decoder undoes it. */
module Encoding {
  import opened Bytes
  import opened Crc16
  import opened Escape
  import opened Frame
  import opened Decoder
  import opened RxModel

  /** The parts of a queued frame that reach the wire. */
  datatype Message = Message(kind: byte, dest: byte, payload: seq<byte>) {
    predicate Valid() {
      IsFraming(kind) && |payload| <= PAYLOAD_MAX
    }
  }

  function Body(m: Message): seq<byte>
    requires m.Valid()
  {
    [m.kind, m.dest, 1, |m.payload|] + m.payload
  }

  /** The frame before stuffing, CRC included. */
  function Raw(m: Message): (r: seq<byte>)
    requires m.Valid()
    ensures |r| == OVERHEAD + |m.payload| && r[0] == m.kind
  {
    Body(m) + [Low(Crc(Body(m))), High(Crc(Body(m)))]
  }

  /** The framing byte is not stuffed. */
  function Encode(m: Message): seq<byte>
    requires m.Valid()
  {
    [m.kind] + Escaped(Raw(m)[1..])
  }

  lemma RawAccepted(m: Message)
    requires m.Valid()
    ensures Accepts(Raw(m)) && FrameOf(Raw(m)) == Raw(m)
  {
    var r, n := Raw(m), HEADER_SIZE + |m.payload|;
    assert r[..n] == Body(m);
    LowHigh(Crc(Body(m)));
    hide Crc, Low, High, Word;
  }

  /** What a receiver reads, field by field, is the message, sent by the daemon. */
  lemma RawReadBack(m: Message)
    requires m.Valid()
    ensures var f := Raw(m);
      && WholeFrame(f) && f[0] == m.kind && f[SRIC_DEST] == m.dest && f[SRIC_SRC] == 1
      && f[SRIC_LEN] == |m.payload| && Payload(f) == m.payload
  {
    hide Crc, Low, High;
    assert Raw(m)[SRIC_DATA..SRIC_DATA + |m.payload|] == m.payload;
  }

  /** The message in a frame that was delivered. */
  function MessageIn(f: seq<byte>): Message
    requires WholeFrame(f)
  {
    Message(f[0], f[SRIC_DEST], Payload(f))
  }

  predicate AllWhole(fs: seq<seq<byte>>) {
    forall f :: f in fs ==> WholeFrame(f)
  }

  function MessagesIn(fs: seq<seq<byte>>): seq<Message>
    requires AllWhole(fs)
  {
    if fs == [] then [] else [MessageIn(fs[0])] + MessagesIn(fs[1..])
  }

  /** At most 69 bytes are stuffed, so 138 of the 139 that next_tx offers always suffice. */
  lemma EncodeFits(m: Message)
    requires m.Valid()
    ensures 5 <= |Escaped(Raw(m)[1..])| <= 138
  {
    EscapedSize(Raw(m)[1..]);
  }

  lemma EscapedUsed(s: seq<byte>, room: nat)
    requires |s| <= room
    ensures Unescaped(Escaped(s), room) == Piece(|Escaped(s)|, s)
  {
    assert Unescaped([], room - |s|) == Piece(0, []);
    hide Escaped, Unescaped;
    assert Escaped(s) + [] == Escaped(s);
    UnescapeInverts(s, [], room);
    PrependEnd(|Escaped(s)|, s);
  }

  /** A stream position at which a frame can start: no escape is pending. */
  predicate Boundary(d: Dec, t: Tail) {
    !d.esc && (d.buf == [] && t.Tail? ==> !t.esc)
  }

  lemma {:induction false} NoFramingClean(d: Dec, t: Tail, s: seq<byte>)
    requires NoFraming(s)
    ensures Clean(d, t, s)
    decreases |s|
  {
    hide Step, NextTail;
    if s != [] {
      NoFramingClean(Step(d, s[0]).dec, NextTail(d, t, s[0]), s[1..]);
    }
  }

  lemma OpenClean(d: Dec, t: Tail, f: byte)
    requires Boundary(d, t) && IsFraming(f)
    ensures Run(d, [f]) == Outcome(Dec([f], false), []) && Clean(d, t, [f])
  {
    RunOne(d, t, [f]);
    hide Run, Clean, RunTail;
  }

  /** From any such position the reference decoder turns an encoded frame into exactly that frame. */
  lemma EncodeDecodes(d: Dec, t: Tail, m: Message)
    requires m.Valid() && Boundary(d, t)
    ensures Run(d, Encode(m)) == Outcome(HUNT, [Raw(m)]) && Clean(d, t, Encode(m))
    ensures RunTail(d, t, Encode(m)) == Tail(PAYLOAD_MAX - |m.payload|, false)
  {
    var f, body := [m.kind], Raw(m)[1..];
    var t' := RunTail(d, t, f);
    RawAccepted(m);
    HeadTail(Raw(m));
    OpenClean(d, t, m.kind);
    hide Run, RunTail, Clean, Accepts, FrameOf, Raw, Escaped, Unescaped, Boundary;
    EscapedHasNoFraming(body);
    NoFramingClean(Dec(f, false), t', Escaped(body));
    EscapedUsed(body, CAPACITY - 1);
    assert Escaped(body)[..|Escaped(body)|] == Escaped(body);
    TooShort(f);
    FillSim(f, t', Escaped(body));
    MatchesAfter(d, t, f, m.kind, Escaped(body), Raw(m));
    CleanAppend(d, t, f, Escaped(body));
  }

  predicate AllValid(ms: seq<Message>) {
    forall i :: 0 <= i < |ms| ==> ms[i].Valid()
  }

  function EncodeAll(ms: seq<Message>): seq<byte>
    requires AllValid(ms)
  {
    if ms == [] then [] else Encode(ms[0]) + EncodeAll(ms[1..])
  }

  function RawAll(ms: seq<Message>): seq<seq<byte>>
    requires AllValid(ms)
  {
    if ms == [] then [] else [Raw(ms[0])] + RawAll(ms[1..])
  }

  lemma {:induction false} RawAllReadBack(ms: seq<Message>)
    requires AllValid(ms)
    ensures AllWhole(RawAll(ms)) && MessagesIn(RawAll(ms)) == ms
    ensures forall f :: f in RawAll(ms) ==> f[SRIC_SRC] == 1
    decreases |ms|
  {
    hide Raw, MessageIn;
    if ms != [] {
      RawReadBack(ms[0]);
      RawAllReadBack(ms[1..]);
      MessageOf(ms[0]);
      hide WholeFrame, Message.Valid;
      HeadTail(ms);
      assert RawAll(ms)[1..] == RawAll(ms[1..]);
    }
  }

  lemma MessageOf(m: Message)
    requires m.Valid()
    ensures WholeFrame(Raw(m)) && MessageIn(Raw(m)) == m
  {
    RawReadBack(m);
    hide Raw, Payload;
  }

  lemma {:induction false} EncodeAllDecodes(d: Dec, t: Tail, ms: seq<Message>)
    requires AllValid(ms) && Boundary(d, t) && ms != []
    ensures Run(d, EncodeAll(ms)) == Outcome(HUNT, RawAll(ms)) && Clean(d, t, EncodeAll(ms))
    ensures RunTail(d, t, EncodeAll(ms)).Tail? && !RunTail(d, t, EncodeAll(ms)).esc
    decreases |ms|
  {
    var first, later := Encode(ms[0]), EncodeAll(ms[1..]);
    var t' := RunTail(d, t, first);
    hide Run, RunTail, Clean, Encode, Raw, AllValid;
    EncodeDecodes(d, t, ms[0]);
    if |ms| == 1 {
      assert later == [] && RawAll(ms[1..]) == [];
      assert first + [] == first && [Raw(ms[0])] + [] == [Raw(ms[0])];
    } else {
      EncodeAllDecodes(HUNT, t', ms[1..]);
      RunAppend(d, first, later);
      CleanAppend(d, t, first, later);
    }
  }
}
