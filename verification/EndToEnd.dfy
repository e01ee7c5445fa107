/** End to end: what the transmit side encodes, the receive side delivers. */
module EndToEnd {
  import opened Bytes
  import opened Escape
  import opened Frame
  import opened Decoder
  import opened RxModel
  import opened Reception
  import opened Encoding

  // ----- The shape of an encoded stream -----

  predicate EndsPlain(s: seq<byte>) {
    s != [] && s[|s| - 1] != ESC && !IsFraming(s[|s| - 1])
  }

  lemma EscapedEndsPlain(s: seq<byte>)
    requires s != []
    ensures EndsPlain(Escaped(s))
  {
    assert Escaped(s) == Escaped(s[..|s| - 1]) + EscapeByte(s[|s| - 1]);
    hide Escaped;
  }

  lemma EncodeShape(m: Message)
    requires m.Valid()
    ensures EndsPlain(Encode(m)) && NoAdjacentFraming(Encode(m)) && NoFraming(Encode(m)[1..])
  {
    var body := Raw(m)[1..];
    EscapedEndsPlain(body);
    EscapedHasNoFraming(body);
    hide Escaped, Raw;
    assert Encode(m)[1..] == Escaped(body);
  }

  lemma JoinShape(x: seq<byte>, y: seq<byte>)
    requires NoAdjacentFraming(x) && NoAdjacentFraming(y)
    requires x == [] || !IsFraming(x[|x| - 1])
    ensures NoAdjacentFraming(x + y)
    ensures EndsPlain(y) ==> EndsPlain(x + y)
  {
    hide IsFraming;
  }

  lemma {:induction false} EncodeAllShape(ms: seq<Message>)
    requires AllValid(ms) && ms != []
    ensures EndsPlain(EncodeAll(ms)) && NoAdjacentFraming(EncodeAll(ms))
    decreases |ms|
  {
    hide Encode, NoAdjacentFraming;
    EncodeShape(ms[0]);
    if |ms| == 1 {
      assert EncodeAll(ms[1..]) == [] && Encode(ms[0]) + [] == Encode(ms[0]);
    } else {
      EncodeAllShape(ms[1..]);
      JoinShape(Encode(ms[0]), EncodeAll(ms[1..]));
    }
  }

  // ----- Nothing stays behind -----

  /** A frame of one byte has just been opened. */
  lemma JustOpened(x: seq<byte>)
    requires |Run(HUNT, x).dec.buf| == 1 && !Run(HUNT, x).dec.esc
    ensures x != [] && IsFraming(x[|x| - 1])
  {
    if x != [] {
      var front, last := x[..|x| - 1], x[|x| - 1..];
      assert x == front + last;
      RunAppend(HUNT, front, last);
      RunOne(Run(HUNT, front).dec, NoTail, last);
      hide Run, Accepts, FrameOf;
    }
  }

  lemma NothingLeft(s: seq<byte>, x: seq<byte>, r: Buffers, t: Tail)
    requires s == x + r.p && Leftover(r) && NoAdjacentFraming(s) && EndsPlain(s)
    requires Sim(r.u, Run(HUNT, x).dec, t)
    ensures r.p == []
  {
    var d := Run(HUNT, x).dec;
    SimDec(r.u, d, t);
    hide Run, Sim;
    assert r.p != [] ==> s[|s| - 1] == r.p[|r.p| - 1] && s[|x|] == r.p[0];
    assert x != [] ==> s[|x| - 1] == x[|x| - 1];
    if |d.buf| == 1 && !d.esc {
      JustOpened(x);
    }
  }

  lemma IdleAfterFrame(u: seq<byte>, t: Tail)
    requires Sim(u, HUNT, t) && t.Tail?
    ensures u == []
  {}

  /** A stream that ends with a frame just delivered leaves nothing behind. */
  lemma DeliversAll(s: seq<byte>, chunks: seq<seq<byte>>)
    requires Concat(chunks) == s && Clean(HUNT, NoTail, s) && NoAdjacentFraming(s) && EndsPlain(s)
    requires Run(HUNT, s).dec == HUNT && RunTail(HUNT, NoTail, s).Tail?
    ensures Reads(IDLE, chunks) == Drained(IDLE, Run(HUNT, s).frames)
  {
    assert Sim([], HUNT, NoTail);
    assert Leftover(IDLE);
    assert [] + s == s;
    hide Run, RunTail, Clean, Reads, Concat, NoAdjacentFraming, Leftover, IsFraming, EndsPlain, Sim;
    ReadsSim(IDLE, HUNT, NoTail, chunks);
    ReadsLeftover(IDLE, chunks);
    var r := Reads(IDLE, chunks);
    var x := Taken(s, r.rx.p);
    NothingLeft(s, x, r.rx, RunTail(HUNT, NoTail, x));
    assert x == s;
    IdleAfterFrame(r.rx.u, RunTail(HUNT, NoTail, s));
  }

  /** However the stream is cut into reads, encoded frames that follow any line noise ending outside
      an escape are delivered exactly, in order, after whatever the noise itself decoded to,
      and both buffers end up empty. */
  lemma Resynchronises(noise: seq<byte>, ms: seq<Message>, chunks: seq<seq<byte>>)
    requires AllValid(ms) && ms != [] && Concat(chunks) == noise + EncodeAll(ms)
    requires Clean(HUNT, NoTail, noise) && Boundary(Run(HUNT, noise).dec, RunTail(HUNT, NoTail, noise))
    requires NoAdjacentFraming(noise) && (noise == [] || !IsFraming(noise[|noise| - 1]))
    ensures Reads(IDLE, chunks) == Drained(IDLE, Run(HUNT, noise).frames + RawAll(ms))
  {
    var s, e := noise + EncodeAll(ms), EncodeAll(ms);
    var d, t := Run(HUNT, noise).dec, RunTail(HUNT, NoTail, noise);
    hide Run, RunTail, Clean, Reads, Concat, EncodeAll, RawAll, NoAdjacentFraming, Boundary, IsFraming, EndsPlain;
    EncodeAllDecodes(d, t, ms);
    EncodeAllShape(ms);
    JoinShape(noise, e);
    RunAppend(HUNT, noise, e);
    CleanAppend(HUNT, NoTail, noise, e);
    DeliversAll(s, chunks);
  }

  lemma {:induction false} NothingToRead(chunks: seq<seq<byte>>)
    requires Concat(chunks) == []
    ensures Reads(IDLE, chunks) == Drained(IDLE, [])
    decreases |chunks|
  {
    if chunks != [] {
      assert chunks[0] == [] && Concat(chunks[1..]) == [];
      assert IDLE.p + chunks[0] == [];
      assert FrameStart([]) == 0;
      assert Drain(IDLE) == Drained(IDLE, []);
      NothingToRead(chunks[1..]);
    }
  }

  /** The round trip: for every list of frames and every way of cutting their encodings into reads, the frames
      delivered are, read field by field, the messages sent, each from the daemon. */
  lemma RoundTrip(ms: seq<Message>, chunks: seq<seq<byte>>)
    requires AllValid(ms) && Concat(chunks) == EncodeAll(ms)
    ensures Reads(IDLE, chunks) == Drained(IDLE, RawAll(ms))
    ensures AllWhole(Reads(IDLE, chunks).frames) && MessagesIn(Reads(IDLE, chunks).frames) == ms
    ensures forall f :: f in Reads(IDLE, chunks).frames ==> f[SRIC_SRC] == 1
  {
    RawAllReadBack(ms);
    hide MessagesIn, RawAll, AllWhole;
    if ms == [] {
      assert RawAll(ms) == [];
      NothingToRead(chunks);
    } else {
      assert [] + EncodeAll(ms) == EncodeAll(ms) && [] + RawAll(ms) == RawAll(ms);
      Resynchronises([], ms, chunks);
    }
  }
}
