/** Exactly which streams the receiver decodes independently of how they are cut into reads. */
module RxLimits {
  import opened Bytes
  import opened Escape
  import opened Encoding
  import opened Frame
  import opened Decoder
  import opened RxModel
  import opened Reception

  /** Reads that a callback can make: at least one byte, at most what rxbuf has room for. */
  predicate Feasible(r: Buffers, chunks: seq<seq<byte>>)
    requires |r.u| <= CAPACITY
    decreases |chunks|
  {
    chunks == [] || (
      DrainBounds(Buffers(r.u, r.p + chunks[0]));
      && 0 < |chunks[0]| && |r.p| + |chunks[0]| <= RXBUF_SIZE
      && Feasible(Callback(r, chunks[0]).rx, chunks[1..]))
  }

  /** After these reads the receiver is where the reference decoder is. */
  predicate Faithful(chunks: seq<seq<byte>>) {
    var d := Reads(IDLE, chunks);
    var rest := Run(DecOf(d.rx.u), d.rx.p);
    Run(HUNT, Concat(chunks)) == Outcome(rest.dec, d.frames + rest.frames)
  }

  ghost predicate AlwaysFaithful(s: seq<byte>) {
    forall chunks: seq<seq<byte>> :: Feasible(IDLE, chunks) && Concat(chunks) <= s ==> Faithful(chunks)
  }

  lemma CleanPrefix(x: seq<byte>, s: seq<byte>)
    requires x <= s && Clean(HUNT, NoTail, s)
    ensures Clean(HUNT, NoTail, x)
  {
    hide Clean;
    assert s == x + s[|x|..];
    CleanAppend(HUNT, NoTail, x, s[|x|..]);
  }

  lemma CleanIsFaithful(s: seq<byte>)
    requires Clean(HUNT, NoTail, s)
    ensures AlwaysFaithful(s)
  {
    hide Clean, Reads, Run, Concat, Feasible;
    forall chunks: seq<seq<byte>> | Feasible(IDLE, chunks) && Concat(chunks) <= s
      ensures Faithful(chunks)
    {
      CleanPrefix(Concat(chunks), s);
      Refinement(chunks);
    }
  }

  // ----- A stream that is not clean has reads that lose a framing byte -----

  lemma {:induction false} FirstSwallowed(s: seq<byte>) returns (h: seq<byte>, f: byte)
    requires !Clean(HUNT, NoTail, s)
    ensures h + [f] <= s && Clean(HUNT, NoTail, h)
    ensures Swallowed(Run(HUNT, h).dec, RunTail(HUNT, NoTail, h), f)
    decreases |s|
  {
    assert s != [];
    hide Run, RunTail, Clean, Swallowed;
    var front, last := s[..|s| - 1], s[|s| - 1..];
    assert s == front + last;
    if Clean(HUNT, NoTail, front) {
      CleanAppend(HUNT, NoTail, front, last);
      RunOne(Run(HUNT, front).dec, RunTail(HUNT, NoTail, front), last);
      h, f := front, last[0];
    } else {
      h, f := FirstSwallowed(front);
    }
  }

  /** All of z is unescaped, to out. */
  predicate Whole(z: seq<byte>, room: nat, out: seq<byte>) {
    Unescaped(z, room) == Piece(|z|, out)
  }

  lemma {:induction false} WholeThen(z: seq<byte>, w: seq<byte>, room: nat, out: seq<byte>)
    requires Whole(z, room, out)
    ensures |out| <= room && Unescaped(z + w, room) == Prepend(|z|, out, Unescaped(w, room - |out|))
    decreases |z|
  {
    if z == [] {
      assert z + w == w;
      PrependJoin(0, 0, 0, [], Unescaped(w, room));
    } else {
      UsedIffOut(z, room);
      var raw, c, rest := FirstUnit(z, room);
      var more := Unescaped(rest, room - 1);
      assert Whole(rest, room - 1, more.out);
      UnitStep(raw, c, rest, w, room);
      hide Unescaped, Flip;
      WholeThen(rest, w, room - 1, more.out);
      PrependJoin(|raw|, c, |rest|, more.out, Unescaped(w, room - |out|));
    }
  }

  lemma UnitStep(raw: seq<byte>, c: byte, rest: seq<byte>, w: seq<byte>, room: nat)
    requires Unit(raw + rest, raw, c, rest) && room > 0
    ensures Unescaped(raw + rest + w, room) == Prepend(|raw|, [c], Unescaped(rest + w, room - 1))
  {
    var p := raw + rest + w;
    assert p[|raw|..] == rest + w;
    UnescapedStep(p, room);
    hide Unescaped, Flip;
  }

  /** h is g, at which a frame u is in progress, then bytes z that one unescape takes in whole and that
      complete the frame, then a lone escape if the tail is in one. */
  datatype Origin = Origin(g: seq<byte>, u: seq<byte>, z: seq<byte>, out: seq<byte>)

  predicate Starts(g: seq<byte>, u: seq<byte>) {
    Run(HUNT, g).dec == Dec(u, false) && u != [] && |u| < CAPACITY
  }

  predicate OriginOf(h: seq<byte>, t: Tail, o: Origin) {
    && t.Tail? && h == o.g + o.z + (if t.esc then [ESC] else [])
    && Starts(o.g, o.u) && Whole(o.z, CAPACITY - |o.u|, o.out) && Accepts(o.u + o.out)
    && |o.u| + |o.out| + t.room == CAPACITY
  }

  lemma LastStep(front: seq<byte>, b: byte)
    ensures var d, t := Run(HUNT, front).dec, RunTail(HUNT, NoTail, front);
      && Run(HUNT, front + [b]).dec == Step(d, b).dec
      && RunTail(HUNT, NoTail, front + [b]) == NextTail(d, t, b)
      && (Clean(HUNT, NoTail, front + [b]) <==> Clean(HUNT, NoTail, front) && !Swallowed(d, t, b))
  {
    hide Run, RunTail, Clean, Step, NextTail, Swallowed;
    var d, t := Run(HUNT, front).dec, RunTail(HUNT, NoTail, front);
    RunAppend(HUNT, front, [b]);
    CleanAppend(HUNT, NoTail, front, [b]);
    RunOne(d, t, [b]);
  }

  lemma SplitLast(h: seq<byte>) returns (front: seq<byte>, b: byte)
    requires h != []
    ensures h == front + [b] && |front| < |h|
  {
    front, b := h[..|h| - 1], h[|h| - 1];
  }

  lemma ProgressBound(d: Dec, b: byte)
    requires |d.buf| < CAPACITY && (d.esc ==> d.buf != [])
    ensures var e := Step(d, b).dec; |e.buf| < CAPACITY && (e.esc ==> e.buf != [])
    ensures var e := Step(d, b).dec; e.esc ==> b == ESC && d == Dec(e.buf, false)
  {
    hide Accepts, FrameOf, Flip;
  }

  lemma {:induction false} EscOrigin(h: seq<byte>) returns (g: seq<byte>)
    ensures var d := Run(HUNT, h).dec;
      && |d.buf| < CAPACITY
      && (d.esc ==> h == g + [ESC] && Starts(g, d.buf))
    decreases |h|
  {
    g := [];
    if h != [] {
      var front, b := SplitLast(h);
      var g' := EscOrigin(front);
      var d := Run(HUNT, front).dec;
      LastStep(front, b);
      assert d.esc ==> d.buf != [];
      hide Run, Step;
      ProgressBound(d, b);
      g := front;
    }
  }

  /** The byte that completed the frame, with the escape before it if there was one. */
  lemma Completed(front: seq<byte>, b: byte) returns (o: Origin)
    requires Run(HUNT, front).dec.buf != [] && NextTail(Run(HUNT, front).dec, NoTail, b).Tail?
    ensures OriginOf(front + [b], NextTail(Run(HUNT, front).dec, NoTail, b), o)
  {
    var d := Run(HUNT, front).dec;
    var g := EscOrigin(front);
    CompletingStep(d, b);
    if d.esc {
      var c := Flip(b);
      o := Origin(g, d.buf, [ESC, b], [c]);
      hide Run, Accepts, Step, Flip, Unescaped;
      WholeUnit([ESC, b], c, CAPACITY - |d.buf|);
      assert front + [b] == g + [ESC, b] + [];
    } else {
      o := Origin(front, d.buf, [b], [b]);
      hide Run, Accepts, Step, Flip, Unescaped;
      WholeUnit([b], b, CAPACITY - |d.buf|);
      assert front + [b] == front + [b] + [];
    }
  }

  lemma CompletingStep(d: Dec, b: byte)
    requires d.buf != [] && NextTail(d, NoTail, b).Tail?
    ensures |d.buf| < CAPACITY && NextTail(d, NoTail, b) == Tail(CAPACITY - 1 - |d.buf|, false)
    ensures d.esc ==> Accepts(d.buf + [Flip(b)])
    ensures !d.esc ==> Accepts(d.buf + [b]) && b != ESC && !IsFraming(b)
  {
    hide Accepts, FrameOf, Flip;
  }

  lemma WholeUnit(raw: seq<byte>, c: byte, room: nat)
    requires Unit(raw, raw, c, []) && room > 0
    ensures Whole(raw, room, [c])
  {
    assert Unescaped([], room - 1) == Piece(0, []);
    hide Flip, Unescaped;
    assert raw + [] + [] == raw && raw + [] == raw;
    UnitStep(raw, c, [], [], room);
    assert [c] + [] == [c];
  }

  lemma WholeMore(z: seq<byte>, raw: seq<byte>, c: byte, room: nat, out: seq<byte>)
    requires Whole(z, room, out) && Unit(raw, raw, c, []) && |out| < room
    ensures Whole(z + raw, room, out + [c])
  {
    hide Unescaped, Flip;
    WholeUnit(raw, c, room - |out|);
    WholeThen(z, raw, room, out);
  }

  /** One more byte of the tail. */
  lemma TailGrows(front: seq<byte>, t: Tail, o: Origin, b: byte) returns (o': Origin)
    requires OriginOf(front, t, o) && t.room > 0 && !IsFraming(b)
    ensures OriginOf(front + [b], NextTail(HUNT, t, b), o')
  {
    hide Run, Unescaped, Flip, Starts, Whole, Accepts;
    if t.esc {
      o' := o.(z := o.z + [ESC, b], out := o.out + [Flip(b)]);
      WholeMore(o.z, [ESC, b], Flip(b), CAPACITY - |o.u|, o.out);
      assert front + [b] == o.g + (o.z + [ESC, b]) + [];
    } else if b == ESC {
      o' := o;
      assert front + [b] == o.g + o.z + [ESC];
    } else {
      o' := o.(z := o.z + [b], out := o.out + [b]);
      WholeMore(o.z, [b], b, CAPACITY - |o.u|, o.out);
      assert front + [b] == o.g + (o.z + [b]) + [];
    }
    TailGrowsAccepts(o.u, o.out, o'.out);
  }

  lemma TailGrowsAccepts(u: seq<byte>, out: seq<byte>, more: seq<byte>)
    requires out <= more && Accepts(u + out)
    ensures Accepts(u + more)
  {
    assert u + out <= u + more;
    AcceptsPrefix(u + out, u + more);
  }

  lemma {:induction false} TailOrigin(h: seq<byte>) returns (o: Origin)
    requires Clean(HUNT, NoTail, h) && RunTail(HUNT, NoTail, h).Tail?
    ensures OriginOf(h, RunTail(HUNT, NoTail, h), o)
    decreases |h|
  {
    assert h != [];
    var front, b := SplitLast(h);
    var d, t := Run(HUNT, front).dec, RunTail(HUNT, NoTail, front);
    LastStep(front, b);
    var g := EscOrigin(front);
    hide Run, RunTail, Clean, OriginOf, Step, Accepts;
    if d.buf != [] {
      o := Completed(front, b);
    } else {
      var before := TailOrigin(front);
      o := TailGrows(front, t, before, b);
    }
  }

  // ----- The reads -----

  lemma {:induction false} FeasibleSnoc(r: Buffers, cs: seq<seq<byte>>, c: seq<byte>)
    requires |r.u| <= CAPACITY
    ensures var d := Reads(r, cs);
      && |d.rx.u| <= CAPACITY
      && Reads(r, cs + [c]) == Drained(Callback(d.rx, c).rx, d.frames + Callback(d.rx, c).frames)
      && (Feasible(r, cs + [c]) <==> Feasible(r, cs) && 0 < |c| && |d.rx.p| + |c| <= RXBUF_SIZE)
    decreases |cs|
  {
    hide Drain;
    ReadsSnoc(r, cs, c);
    DrainBounds(Buffers(r.u, r.p + c));
    if cs == [] {
      assert cs + [c] == [c] && [c][1..] == [];
    } else {
      assert (cs + [c])[1..] == cs[1..] + [c];
      DrainBounds(Buffers(r.u, r.p + cs[0]));
      FeasibleSnoc(Callback(r, cs[0]).rx, cs[1..], c);
    }
  }

  /** Nothing but a lone escape is left when rxbuf held at most that before a one-byte read. */
  lemma OneByteLeftover(r: Buffers, b: byte)
    requires |r.u| <= CAPACITY && (r.p == [] || r.p == [ESC])
    ensures var p := Callback(r, [b]).rx.p; p == [] || p == [ESC]
  {
    var before := Buffers(r.u, r.p + [b]);
    hide Drain;
    DrainBounds(before);
    DrainLeftover(before);
    DrainShrinks(before);
    if r.p == [ESC] {
      assert r.p + [b] == [ESC, b];
      EscapeTaken(r.u, b);
    }
  }

  /** An escape and its byte are dealt with together, or the escape is skipped. */
  lemma EscapeTaken(u: seq<byte>, b: byte)
    requires |u| <= CAPACITY
    ensures var p := Drain(Buffers(u, [ESC, b])).rx.p; p == []
  {
    var r := Buffers(u, [ESC, b]);
    AdvanceProgress(r);
    var a := AdvanceRx(r);
    assert a.rx.p == [] by { EscapeAdvance(u, b); }
    hide AdvanceRx, Accepts, FrameOf;
    if a.more {
      DrainBounds(if Accepts(a.rx.u) then Buffers([], a.rx.p) else a.rx);
    }
  }

  lemma EscapeAdvance(u: seq<byte>, b: byte)
    requires |u| <= CAPACITY
    ensures AdvanceRx(Buffers(u, [ESC, b])).rx.p == []
  {
    var p := [ESC, b];
    if Restarted(Buffers(u, p)) != [] {
      UnescapedStep(p, CAPACITY - |u|);
      assert p[2..] == [];
      hide Flip;
    } else if IsFraming(b) {
      FrameStartIs(p, 1);
      assert p[1..][1..] == [];
    } else {
      FrameStartIs(p, 2);
    }
  }

  function Singles(g: seq<byte>): seq<seq<byte>> {
    if g == [] then [] else Singles(g[..|g| - 1]) + [[g[|g| - 1]]]
  }

  lemma {:induction false} ByteByByte(g: seq<byte>)
    ensures Feasible(IDLE, Singles(g)) && Concat(Singles(g)) == g
    ensures var p := Reads(IDLE, Singles(g)).rx.p; p == [] || p == [ESC]
    decreases |g|
  {
    if g == [] {
      assert Feasible(IDLE, []) && Concat([]) == [] && Reads(IDLE, []).rx == IDLE;
    } else {
      hide Reads, Feasible, Concat;
      var front, b := g[..|g| - 1], g[|g| - 1];
      ByteByByte(front);
      NextSingle(Singles(front), b);
    }
  }

  lemma NextSingle(cs: seq<seq<byte>>, b: byte)
    requires Feasible(IDLE, cs) && (Reads(IDLE, cs).rx.p == [] || Reads(IDLE, cs).rx.p == [ESC])
    ensures Feasible(IDLE, cs + [[b]]) && Concat(cs + [[b]]) == Concat(cs) + [b]
    ensures var p := Reads(IDLE, cs + [[b]]).rx.p; p == [] || p == [ESC]
  {
    hide Reads, Feasible, Drain, Concat;
    FeasibleSnoc(IDLE, cs, [b]);
    ConcatSnoc(cs, [b]);
    OneByteLeftover(Reads(IDLE, cs).rx, b);
  }

  /** Byte by byte, the receiver gets to the frame in progress with nothing waiting in rxbuf. */
  lemma GetTo(g: seq<byte>, u: seq<byte>)
    requires Clean(HUNT, NoTail, g) && Starts(g, u)
    ensures Reads(IDLE, Singles(g)).rx == Buffers(u, [])
  {
    ByteByByte(g);
    hide Reads, Feasible, Concat, Clean;
    Refinement(Singles(g));
    var r := Reads(IDLE, Singles(g)).rx;
    if r.p == [ESC] {
      RunOne(DecOf(r.u), NoTail, r.p);
    }
  }

  /** One read that completes the frame and holds the rest of the tail loses the framing byte. */
  lemma LosesFraming(u: seq<byte>, z: seq<byte>, f: byte, out: seq<byte>)
    requires u != [] && |u| < CAPACITY && |u| + |out| < CAPACITY
    requires Whole(z, CAPACITY - |u|, out) && Accepts(u + out) && !Accepts(u)
    ensures Callback(Buffers(u, []), z + [ESC, f]).rx == IDLE
    ensures |z| + 2 <= RXBUF_SIZE
  {
    var p := z + [ESC, f];
    var c := Flip(f);
    assert [] + p == p;
    hide Flip, Run;
    WholeMore(z, [ESC, f], c, CAPACITY - |u|, out);
    WholeSize(p, CAPACITY - |u|, out + [c]);
    assert u + (out + [c]) == u + out + [c];
    AcceptsPrefix(u + out, u + out + [c]);
    WholeAdvance(u, p, out + [c]);
    hide Accepts, FrameOf, AdvanceRx, Unescaped, Whole;
    assert FrameStart([]) == 0;
    assert Drain(IDLE) == Drained(IDLE, []) by { NothingAdvances(); }
  }

  lemma NothingAdvances()
    ensures AdvanceRx(IDLE) == Advanced(false, IDLE)
  {
    assert FrameStart([]) == 0;
  }

  lemma {:induction false} WholeSize(z: seq<byte>, room: nat, out: seq<byte>)
    requires Whole(z, room, out)
    ensures |z| <= 2 * |out| && |out| <= room
    decreases |z|
  {
    UsedIffOut(z, room);
    if out != [] {
      var raw, c, rest := FirstUnit(z, room);
      var more := Unescaped(rest, room - 1);
      hide Flip, Unescaped;
      WholeSize(rest, room - 1, more.out);
    }
  }

  lemma WholeAdvance(u: seq<byte>, p: seq<byte>, out: seq<byte>)
    requires u != [] && |u| < CAPACITY && out != [] && Whole(p, CAPACITY - |u|, out)
    ensures AdvanceRx(Buffers(u, p)) == Advanced(true, Buffers(u + out, []))
  {
    assert !IsFraming(p[0]);
    assert Restarted(Buffers(u, p)) == u;
    hide Unescaped;
    assert p[|p|..] == [];
  }

  lemma RunNothing()
    ensures Run(HUNT, []).dec == HUNT
  {}

  lemma OpensHere(d: Dec, f: byte)
    requires d.buf == [] && IsFraming(f)
    ensures Step(d, f).dec == Dec([f], false)
  {}

  lemma NotYetAccepted(g: seq<byte>, u: seq<byte>)
    requires Clean(HUNT, NoTail, g) && Reads(IDLE, Singles(g)).rx == Buffers(u, []) && u != [] && |u| < CAPACITY
    ensures !Accepts(u)
  {
    ByteByByte(g);
    assert [] + g == g;
    assert Sim([], HUNT, NoTail);
    hide Run, RunTail, Clean, Reads, Feasible, Concat, Accepts;
    ReadsSim(IDLE, HUNT, NoTail, Singles(g));
  }

  /** Decoding is independent of how the stream is cut into reads exactly for clean streams. */
  lemma FaithfulIffClean(s: seq<byte>)
    ensures AlwaysFaithful(s) <==> Clean(HUNT, NoTail, s)
  {
    if Clean(HUNT, NoTail, s) {
      CleanIsFaithful(s);
    } else {
      var chunks := UnfaithfulReads(s);
      assert !AlwaysFaithful(s);
    }
  }

  lemma UnfaithfulReads(s: seq<byte>) returns (chunks: seq<seq<byte>>)
    requires !Clean(HUNT, NoTail, s)
    ensures Feasible(IDLE, chunks) && Concat(chunks) <= s && !Faithful(chunks)
  {
    var h, f := FirstSwallowed(s);
    var o := TailOrigin(h);
    var d, t := Run(HUNT, h).dec, RunTail(HUNT, NoTail, h);
    assert t.esc && t.room > 0 && d.buf == [] && IsFraming(f);
    var g := EscOrigin(h);
    assert h == o.g + (o.z + [ESC]);
    hide Run, RunTail, Clean, Accepts, Whole;
    CleanPrefix(o.g, h);
    LastStep(h, f);
    OpensHere(d, f);
    chunks := Singles(o.g) + [o.z + [ESC, f]];
    assert o.g + (o.z + [ESC, f]) == h + [f];
    hide Swallowed, Starts, Step;
    LostFraming(o, f, h + [f]);
  }

  lemma LostFraming(o: Origin, f: byte, s: seq<byte>)
    requires Clean(HUNT, NoTail, o.g) && Starts(o.g, o.u)
    requires Whole(o.z, CAPACITY - |o.u|, o.out) && Accepts(o.u + o.out) && |o.u| + |o.out| < CAPACITY
    requires s == o.g + (o.z + [ESC, f]) && Run(HUNT, s).dec == Dec([f], false)
    ensures var chunks := Singles(o.g) + [o.z + [ESC, f]];
      Feasible(IDLE, chunks) && Concat(chunks) == s && !Faithful(chunks)
  {
    var last := o.z + [ESC, f];
    GetTo(o.g, o.u);
    RunNothing();
    hide Run, Clean, Reads, Feasible, Concat, Accepts, Whole;
    NotYetAccepted(o.g, o.u);
    LosesFraming(o.u, o.z, f, o.out);
    ByteByByte(o.g);
    FeasibleSnoc(IDLE, Singles(o.g), last);
    ConcatSnoc(Singles(o.g), last);
  }

  /** There are such streams: a frame with room for more payload, an escape, and the next framing byte. */
  lemma EscapeAfterFrame(m: Message, f: byte)
    requires m.Valid() && |m.payload| < PAYLOAD_MAX && IsFraming(f)
    ensures !Clean(HUNT, NoTail, Encode(m) + [ESC, f])
    ensures !AlwaysFaithful(Encode(m) + [ESC, f])
  {
    EncodeDecodes(HUNT, NoTail, m);
    var t := Tail(PAYLOAD_MAX - |m.payload|, false);
    hide Encode, AlwaysFaithful;
    CleanAppend(HUNT, NoTail, Encode(m), [ESC, f]);
    SwallowsFraming(t, f);
    FaithfulIffClean(Encode(m) + [ESC, f]);
  }

  lemma SwallowsFraming(t: Tail, f: byte)
    requires t.Tail? && t.room > 0 && !t.esc && IsFraming(f)
    ensures !Clean(HUNT, t, [ESC, f])
  {
    var s := [ESC, f];
    assert s[1..] == [f];
    assert Step(HUNT, ESC).dec == HUNT && NextTail(HUNT, t, ESC) == Tail(t.room, true);
    assert !Clean(HUNT, Tail(t.room, true), [f]);
  }

  /** Two adjacent framing bytes end a callback early: everything from the second one on waits in rxbuf,
      complete frames included, until the next read. */
  lemma AdjacentFramingDelays(f: byte, s: seq<byte>)
    requires IsFraming(f) && s != [] && IsFraming(s[0])
    ensures Callback(IDLE, [f] + s) == Drained(Buffers([f], s), [])
  {
    var p := [f] + s;
    assert [] + p == p && p[1..] == s;
    FrameStartIs(p, 0);
    UnescapedStops(s, CAPACITY - 1);
    assert s[0..] == s && [f] + [] == [f];
    hide Unescaped, FrameStart;
    assert AdvanceRx(Buffers([], p)) == Advanced(false, Buffers([f], s));
  }
}
