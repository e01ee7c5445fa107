/** What clients and the daemon write to each other over a socket (sricd/ipc.c, libsric/sric.c). */
module Ipc {
  import opened Bytes
  import opened Crc16
  import opened FlagWord
  import opened Delivery

  const SRICD_TX: byte := 0
  const SRICD_NOTE_FLAGS: byte := 1
  const SRICD_POLL_RX: byte := 2
  const SRICD_POLL_NOTE: byte := 3
  const SRICD_NOTE_CLEAR: byte := 4
  const SRICD_LIST_DEVICES: byte := 5

  const E_SUCCESS: byte := 0
  const E_BADADDR: byte := 1
  const E_TIMEOUT: byte := 2
  const E_BADREQUEST: byte := 3

  const HIGH_ADDRESS := 128

  datatype SricError = NoError | NoSuchAddress | NoSendNote | BadPayload | Sricd | Loop | Timeout | BroadcastAddress

  /** What libsric makes of the daemon's result byte. */
  function ErrorOf(result: byte): SricError {
    if result == E_BADADDR then BadPayload
    else if result == E_TIMEOUT then Timeout
    else if result != 0 then Sricd
    else NoError
  }

  /** Each of these errors stands for exactly one answer of the daemon, and success for one. */
  lemma ErrorsMean(result: byte)
    ensures ErrorOf(result) == NoError <==> result == E_SUCCESS
    ensures ErrorOf(result) == BadPayload <==> result == E_BADADDR
    ensures ErrorOf(result) == Timeout <==> result == E_TIMEOUT
    ensures ErrorOf(result) in {NoError, BadPayload, Timeout, Sricd}
  {}

  // ----- Numbers, most significant byte first -----

  function Be16(n: int): (b: seq<byte>)
    ensures |b| == 2
  {
    [n / 256 % 256, n % 256]
  }

  function OfBe16(hi: byte, lo: byte): nat { hi as int * 256 + lo as int }

  function Signed(n: int, half: int): int { if n >= half then n - 2 * half else n }

  function Be32(n: int): seq<byte> { [n / 0x100_0000 % 256, n / 0x1_0000 % 256, n / 256 % 256, n % 256] }

  function OfBe32(b: seq<byte>): int
    requires |b| == 4
  {
    Signed(((b[0] as int * 256 + b[1] as int) * 256 + b[2] as int) * 256 + b[3] as int, 0x8000_0000)
  }

  lemma Be16RoundTrip(n: int)
    ensures OfBe16(Be16(n)[0], Be16(n)[1]) == n % 0x1_0000
  {}

  lemma Pieces(n: int)
    ensures n % 0x1_0000 == n / 256 % 256 * 256 + n % 256
  {}

  /** A poll's timeout, -1 included, reaches the daemon unchanged. */
  lemma TimeoutRoundTrip(t: int)
    requires -0x8000_0000 <= t < 0x8000_0000
    ensures OfBe32(Be32(t)) == t
  {
    var high := t / 0x1_0000;
    Pieces(t);
    Pieces(high);
    assert t / 0x100_0000 == high / 256;
    assert t == high * 0x1_0000 + t % 0x1_0000;
  }

  lemma SignedRoundTrip(n: int)
    requires -0x8000 <= n < 0x8000
    ensures Signed(n % 0x1_0000, 0x8000) == n
  {}

  // ----- Notification flags -----

  function FlagsCommand(device: int, flags: bv64): seq<byte> {
    [SRICD_NOTE_FLAGS] + Be16(device) + FlagBytes(flags)
  }

  function FlagBytes(flags: bv64): (b: seq<byte>)
    ensures |b| == 8
  {
    [Byte(flags, 7), Byte(flags, 6), Byte(flags, 5), Byte(flags, 4),
     Byte(flags, 3), Byte(flags, 2), Byte(flags, 1), Byte(flags, 0)]
  }

  /** Reading eight bytes into a uint64_t. */
  function LoadBytes(b: seq<byte>): bv64
    requires |b| == 8
  {
    Load([Octet(b[0]), Octet(b[1]), Octet(b[2]), Octet(b[3]), Octet(b[4]), Octet(b[5]), Octet(b[6]), Octet(b[7])])
  }

  /** The flags that handle_note_flags passes on, once ntohll has turned the word round. */
  function FlagsRead(b: seq<byte>): bv64
    requires |b| == 8
  {
    Load(Reversed8(Memory(LoadBytes(b))))
  }

  lemma MemoryLoad(b: seq<bv8>)
    requires |b| == 8
    ensures Memory(Load(b)) == b
  {}

  lemma OctetByte(w: bv64, k: nat)
    requires k < 8
    ensures Octet(Byte(w, k)) == Byte8(w, k)
  {
    hide Byte8;
    OctetRoundTrip(Byte8(w, k));
  }

  lemma FlagsRoundTrip(flags: bv64)
    ensures FlagsRead(FlagBytes(flags)) == flags
  {
    hide Load, Octet, Byte, Byte8;
    OctetByte(flags, 0); OctetByte(flags, 1); OctetByte(flags, 2); OctetByte(flags, 3);
    OctetByte(flags, 4); OctetByte(flags, 5); OctetByte(flags, 6); OctetByte(flags, 7);
    MemoryLoad(Reversed8(Memory(flags)));
    LoadMemory(flags);
  }

  // ----- Sending a frame -----

  /** Numbers in this command are least significant byte first, on both sides. */
  function TxCommand(address: int, payload: seq<byte>): seq<byte> {
    [SRICD_TX, address % 256, address / 256 % 256, |payload| % 256, |payload| / 256 % 256] + payload
  }

  /** Address, payload and the unread rest, or nothing on a short read. */
  function TxRead(input: seq<byte>): Option<(int, seq<byte>, seq<byte>)> {
    if |input| < 4 then None
    else
      var length := input[2] as int + 256 * input[3] as int;
      if |input| < 4 + length then None
      else Some((input[0] as int + 256 * input[1] as int, input[4..4 + length], input[4 + length..]))
  }

  /** A request to send is short exactly if its header or the payload announced there is not all there. */
  lemma TxShortIff(input: seq<byte>)
    ensures TxRead(input) == None <==>
      |input| < 4 || |input| < 4 + (input[2] as int + 256 * input[3] as int)
  {}

  lemma TxRoundTrip(address: int, payload: seq<byte>, rest: seq<byte>)
    requires 0 <= address < 0x1_0000 && |payload| < 0x1_0000
    ensures TxRead((TxCommand(address, payload) + rest)[1..]) == Some((address, payload, rest))
  {
    var input := (TxCommand(address, payload) + rest)[1..];
    var a0, a1, l0, l1 := address % 256, address / 256 % 256, |payload| % 256, |payload| / 256 % 256;
    assert input == [a0, a1, l0, l1] + (payload + rest);
    Halves(address);
    Halves(|payload|);
    TxParts(a0, a1, l0, l1, payload, rest);
  }

  lemma Halves(n: nat)
    requires n < 0x1_0000
    ensures n % 256 + 256 * (n / 256 % 256) == n
  {}

  lemma TxParts(a0: byte, a1: byte, l0: byte, l1: byte, payload: seq<byte>, rest: seq<byte>)
    requires l0 as int + 256 * l1 as int == |payload|
    ensures TxRead([a0, a1, l0, l1] + (payload + rest)) == Some((a0 as int + 256 * a1 as int, payload, rest))
  {
    var input := [a0, a1, l0, l1] + (payload + rest);
    assert input[4..4 + |payload|] == payload && input[4 + |payload|..] == rest;
  }

  // ----- Polling -----

  function PollCommand(kind: byte, timeout: int): seq<byte> { [kind] + Be32(timeout) }

  function ReplyBytes(r: Reply): seq<byte> {
    match r
    case TimedOut => [E_TIMEOUT]
    case Delivered(f) =>
      [E_SUCCESS, 0, f.source, f.note / 256, f.note % 256, 0, |f.payload| % 256] + f.payload
  }

  datatype PollOutcome = Got(address: nat, note: nat, payload: seq<byte>) | Failed(error: SricError)

  /** What sric_poll makes of the bytes it finds, and what it leaves unread. */
  function PollAnswer(input: seq<byte>): (PollOutcome, seq<byte>) {
    if input == [] then (Failed(Sricd), [])
    else if input[0] != E_SUCCESS then (Failed(ErrorOf(input[0])), input[1..])
    else if |input| < 7 then (Failed(Sricd), [])
    else
      var length := OfBe16(input[5], input[6]);
      if |input| < 7 + length then (Failed(Sricd), [])
      else (Got(OfBe16(input[1], input[2]), OfBe16(input[3], input[4]), input[7..7 + length]), input[7 + length..])
  }

  /** sric_poll succeeds exactly if the daemon answered with success, and all of the header and of the payload announced
      there is to be read; it never returns part of a payload. */
  lemma PollSucceedsIff(input: seq<byte>)
    ensures PollAnswer(input).0.Got? <==>
      |input| >= 7 && input[0] == E_SUCCESS && |input| >= 7 + OfBe16(input[5], input[6])
    ensures PollAnswer(input).0.Got? ==> |PollAnswer(input).0.payload| == OfBe16(input[5], input[6])
    ensures PollAnswer(input).0.Failed? ==>
      PollAnswer(input).0.error == if input == [] || input[0] == E_SUCCESS then Sricd else ErrorOf(input[0])
  {}

  function Outcome(r: Reply): PollOutcome {
    match r
    case TimedOut => Failed(Timeout)
    case Delivered(f) => Got(f.source, f.note, f.payload)
  }

  lemma PollRoundTrip(r: Reply, rest: seq<byte>)
    requires r.Delivered? ==> r.f.Valid()
    ensures PollAnswer(ReplyBytes(r) + rest) == (Outcome(r), rest)
  {
    var input := ReplyBytes(r) + rest;
    if r.Delivered? {
      assert OfBe16(input[5], input[6]) == |r.f.payload|;
      assert input[7..7 + |r.f.payload|] == r.f.payload && input[7 + |r.f.payload|..] == rest;
    } else {
      assert input[1..] == rest;
    }
  }

  predicate AllValid(rs: seq<Reply>) {
    forall r :: r in rs ==> r.Delivered? ==> r.f.Valid()
  }

  function AllBytes(rs: seq<Reply>): seq<byte> {
    if rs == [] then [] else ReplyBytes(rs[0]) + AllBytes(rs[1..])
  }

  /** The outcomes of n polls in a row, reading one stream. */
  function PollOutcomes(input: seq<byte>, n: nat): seq<PollOutcome>
    decreases n
  {
    if n == 0 then [] else [PollAnswer(input).0] + PollOutcomes(PollAnswer(input).1, n - 1)
  }

  function Outcomes(rs: seq<Reply>): seq<PollOutcome> {
    if rs == [] then [] else [Outcome(rs[0])] + Outcomes(rs[1..])
  }

  /** However the replies run together in the socket, libsric takes them apart again. */
  lemma {:induction false} StreamRoundTrip(rs: seq<Reply>, rest: seq<byte>)
    requires AllValid(rs)
    ensures PollOutcomes(AllBytes(rs) + rest, |rs|) == Outcomes(rs)
  {
    hide ReplyBytes, PollAnswer, Outcome;
    if rs != [] {
      PollRoundTrip(rs[0], AllBytes(rs[1..]) + rest);
      assert AllBytes(rs) + rest == ReplyBytes(rs[0]) + (AllBytes(rs[1..]) + rest);
      StreamRoundTrip(rs[1..], rest);
    }
  }

  // ----- From the bus to the caller of sric_poll -----

  function GotOnly(os: seq<PollOutcome>): seq<PollOutcome> {
    if os == [] then [] else (if os[0].Got? then [os[0]] else []) + GotOnly(os[1..])
  }

  function AsReceived(fs: seq<RxFrame>): seq<PollOutcome> {
    if fs == [] then [] else [Got(fs[0].source, fs[0].note, fs[0].payload)] + AsReceived(fs[1..])
  }

  lemma {:induction false} AsReceivedAppend(x: seq<RxFrame>, y: seq<RxFrame>)
    ensures AsReceived(x + y) == AsReceived(x) + AsReceived(y)
    decreases |x|
  {
    if x == [] {
      assert x + y == y;
    } else {
      assert (x + y)[1..] == x[1..] + y;
      AsReceivedAppend(x[1..], y);
    }
  }

  lemma {:induction false} GotFrames(rs: seq<Reply>)
    ensures GotOnly(Outcomes(rs)) == AsReceived(Frames(rs))
  {
    if rs != [] {
      GotFrames(rs[1..]);
      assert Outcomes(rs)[1..] == Outcomes(rs[1..]);
      if rs[0].Delivered? {
        assert ([rs[0].f] + Frames(rs[1..]))[1..] == Frames(rs[1..]);
      } else {
        assert [] + Frames(rs[1..]) == Frames(rs[1..]);
      }
    }
  }

  lemma {:induction false} RepliesValid(s: Side, es: seq<Event>)
    requires forall f :: f in s.queue ==> f.Valid()
    requires forall e :: e in es ==> e.Push? ==> e.f.Valid()
    ensures AllValid(Replies(s, es))
    decreases |es|
  {
    if es != [] {
      var (s1, rs) := Step(s, es[0]);
      assert es[0] in es;
      assert forall e :: e in es[1..] ==> e in es;
      StepValid(s, es[0]);
      hide Step;
      RepliesValid(s1, es[1..]);
    }
  }

  lemma StepValid(s: Side, e: Event)
    requires forall f :: f in s.queue ==> f.Valid()
    requires e.Push? ==> e.f.Valid()
    ensures forall f :: f in Step(s, e).0.queue ==> f.Valid()
    ensures AllValid(Step(s, e).1)
  {}

  /** Everything that one of the queues ever sent, read back from a socket of its own, and what still waits
      in it, is what was pushed: same frames, same order, none twice. */
  lemma AllSentReadBack(es: seq<Event>)
    requires Legal(EMPTY, es) && forall e :: e in es ==> e.Push? ==> e.f.Valid()
    ensures var rs := Replies(EMPTY, es);
      GotOnly(PollOutcomes(AllBytes(rs), |rs|)) + AsReceived(After(EMPTY, es).queue) == AsReceived(Pushed(es))
  {
    var rs, queue := Replies(EMPTY, es), After(EMPTY, es).queue;
    NothingLostOrReordered(EMPTY, es);
    RepliesValid(EMPTY, es);
    hide Replies, After, Legal;
    StreamRoundTrip(rs, []);
    assert AllBytes(rs) + [] == AllBytes(rs);
    GotFrames(rs);
    AsReceivedAppend(Frames(rs), queue);
    assert EMPTY.queue + Pushed(es) == Pushed(es);
  }
}
