/** What one run of the receive callback does to the two receive buffers, as functions of their
    contents, and why the outcome does not depend on how the stream is cut into reads. */
module RxModel {
  import opened Bytes
  import opened Escape
  import opened Frame
  import opened Decoder

  /** u: the frame being assembled in unesc_rx; p: the raw bytes waiting in rxbuf. */
  datatype Buffers = Buffers(u: seq<byte>, p: seq<byte>)

  const RXBUF_SIZE := 2 * CAPACITY

  const IDLE := Buffers([], [])

  /** The index of the first framing byte, or |p|. */
  function FrameStart(p: seq<byte>): (i: nat)
    ensures i <= |p| && (i < |p| ==> IsFraming(p[i]))
    ensures forall k :: 0 <= k < i ==> !IsFraming(p[k])
  {
    if p == [] || IsFraming(p[0]) then 0 else
      var i := FrameStart(p[1..]);
      assert forall k :: 1 <= k < i + 1 ==> p[k] == p[1..][k - 1];
      1 + i
  }

  lemma FrameStartIs(p: seq<byte>, i: nat)
    requires i <= |p| && (i < |p| ==> IsFraming(p[i]))
    requires forall k :: 0 <= k < i ==> !IsFraming(p[k])
    ensures FrameStart(p) == i
  {
    hide FrameStart, IsFraming;
    var j := FrameStart(p);
    assert !(j < i) && !(i < j);
  }

  function SkipToFraming(p: seq<byte>): (q: seq<byte>)
    ensures |q| <= |p|
  {
    p[FrameStart(p)..]
  }

  datatype Advanced = Advanced(more: bool, rx: Buffers)

  /** Unescapes from p into what is left of unesc_rx. */
  function FillFrom(u: seq<byte>, p: seq<byte>): Advanced
    requires |u| <= CAPACITY
  {
    var piece := Unescaped(p, CAPACITY - |u|);
    Advanced(piece.out != [], Buffers(u + piece.out, p[piece.used..]))
  }

  /** The frame in progress is given up at a framing byte and when the buffer is full. */
  function Restarted(r: Buffers): seq<byte> {
    if (r.p != [] && IsFraming(r.p[0])) || |r.u| == CAPACITY then [] else r.u
  }

  function AdvanceRx(r: Buffers): Advanced
    requires |r.u| <= CAPACITY
  {
    var u := Restarted(r);
    if u != [] then FillFrom(u, r.p)
    else
      var q := SkipToFraming(r.p);
      if q == [] then Advanced(false, IDLE) else FillFrom([q[0]], q[1..])
  }

  lemma FillProgress(u: seq<byte>, p: seq<byte>)
    requires |u| <= CAPACITY
    ensures var a := FillFrom(u, p);
      |a.rx.u| <= CAPACITY && |a.rx.p| <= |p| && (a.more ==> |a.rx.p| < |p|) && (u != [] ==> a.rx.u != [])
  {}

  lemma AdvanceProgress(r: Buffers)
    requires |r.u| <= CAPACITY
    ensures var a := AdvanceRx(r);
      |a.rx.u| <= CAPACITY && |a.rx.p| <= |r.p| && (a.more ==> |a.rx.p| < |r.p| && a.rx.u != [])
  {
    var u := Restarted(r);
    var q := SkipToFraming(r.p);
    if u != [] {
      FillProgress(u, r.p);
    } else if q != [] {
      FillProgress([q[0]], q[1..]);
    }
  }

  datatype Drained = Drained(rx: Buffers, frames: seq<seq<byte>>)

  /** The loop of the receive callback. */
  function Drain(r: Buffers): Drained
    requires |r.u| <= CAPACITY
    decreases |r.p|
  {
    AdvanceProgress(r);
    var a := AdvanceRx(r);
    if !a.more then Drained(a.rx, [])
    else if Accepts(a.rx.u) then
      var d := Drain(Buffers([], a.rx.p));
      Drained(d.rx, [FrameOf(a.rx.u)] + d.frames)
    else Drain(a.rx)
  }

  /** One callback: a read appends to rxbuf, then the loop runs. */
  function Callback(r: Buffers, bytes: seq<byte>): Drained
    requires |r.u| <= CAPACITY
  {
    Drain(Buffers(r.u, r.p + bytes))
  }

  lemma {:induction false} DrainBounds(r: Buffers)
    requires |r.u| <= CAPACITY
    ensures |Drain(r).rx.u| <= CAPACITY && |Drain(r).rx.p| <= |r.p|
    decreases |r.p|
  {
    AdvanceProgress(r);
    var a := AdvanceRx(r);
    hide AdvanceRx, Accepts, FrameOf;
    if a.more {
      DrainBounds(if Accepts(a.rx.u) then Buffers([], a.rx.p) else a.rx);
    }
  }

  lemma AdvanceShrinks(r: Buffers)
    requires |r.u| <= CAPACITY && r.p != []
    ensures |AdvanceRx(r).rx.p| < |r.p| || AdvanceRx(r).rx.p == [ESC]
  {
    var u := Restarted(r);
    var q := SkipToFraming(r.p);
    if u == [] {
      if q != [] {
        FillProgress([q[0]], q[1..]);
      }
    } else {
      UsedIffOut(r.p, CAPACITY - |u|);
      assert r.p[0..] == r.p;
      hide SkipToFraming, FrameStart;
    }
  }

  /** Every callback makes progress, so the fixed buffer cannot stay full. */
  lemma DrainShrinks(r: Buffers)
    requires |r.u| <= CAPACITY && r.p != []
    ensures |Drain(r).rx.p| < |r.p| || Drain(r).rx.p == [ESC]
  {
    AdvanceShrinks(r);
    AdvanceProgress(r);
    var a := AdvanceRx(r);
    hide AdvanceRx, Accepts, FrameOf;
    if a.more {
      DrainBounds(if Accepts(a.rx.u) then Buffers([], a.rx.p) else a.rx);
    }
  }

  lemma UsedIffOut(p: seq<byte>, room: nat)
    ensures Unescaped(p, room).out == [] <==> Unescaped(p, room).used == 0
  {}

  // ----- Acceptance depends only on the bytes of the frame -----

  lemma AcceptsPrefix(x: seq<byte>, y: seq<byte>)
    requires x <= y && Accepts(x)
    ensures Accepts(y) && FrameOf(y) == FrameOf(x)
  {
    var n := HEADER_SIZE + x[SRIC_LEN] as int;
    assert x[..n] == y[..n];
    assert x[..n + 2] == y[..n + 2];
  }

  // ----- Simulation -----

  predicate Hunting(d: Dec) { d.buf == [] && !d.esc }

  /** The code's buffer u and the reference decoder's state after the same bytes. */
  predicate Sim(u: seq<byte>, d: Dec, t: Tail) {
    if u == [] then Hunting(d)
    else if |u| >= CAPACITY then Hunting(d) && t.NoTail? && |u| == CAPACITY
    else d == Dec(u, false) && !Accepts(u)
  }

  lemma {:induction false} HuntThrough(x: seq<byte>)
    requires NoFraming(x)
    ensures Run(HUNT, x) == Outcome(HUNT, [])
    decreases |x|
  {
    if x != [] {
      HuntThrough(x[1..]);
    }
  }

  /** The raw bytes behind one unescaped byte c, and the rest of the input. */
  predicate Unit(p: seq<byte>, raw: seq<byte>, c: byte, rest: seq<byte>) {
    && p == raw + rest
    && ((|raw| == 1 && raw[0] == c && c != ESC && !IsFraming(c)) || (|raw| == 2 && raw[0] == ESC && c == Flip(raw[1])))
  }

  /** Either unescape stops at once, or it takes one unit and goes on. */
  lemma FirstUnit(p: seq<byte>, room: nat) returns (raw: seq<byte>, c: byte, rest: seq<byte>)
    requires room > 0 && Unescaped(p, room).out != []
    ensures Unit(p, raw, c, rest) && Unit(raw, raw, c, [])
    ensures Unescaped(p, room) == Prepend(|raw|, [c], Unescaped(rest, room - 1))
  {
    if p[0] == ESC {
      raw, c, rest := p[..2], Flip(p[1]), p[2..];
    } else {
      raw, c, rest := p[..1], p[0], p[1..];
    }
    assert raw + [] == raw;
  }

  /** In a frame, a unit is one byte taken. */
  lemma UnitInFrame(u: seq<byte>, t: Tail, raw: seq<byte>, c: byte)
    requires u != [] && |u| < CAPACITY && Unit(raw, raw, c, [])
    ensures Run(Dec(u, false), raw) == Take(u, c)
    ensures RunTail(Dec(u, false), t, raw) == if Accepts(u + [c]) then Tail(CAPACITY - 1 - |u|, false) else NoTail
  {
    hide Accepts, FrameOf, Flip;
    if |raw| == 1 {
      RunOne(Dec(u, false), t, raw);
    } else {
      RunTwo(Dec(u, false), t, raw);
    }
    hide Run, RunTail;
  }

  /** After a frame, a unit of a clean tail is ignored. */
  lemma UnitInTail(room: nat, raw: seq<byte>, c: byte)
    requires room > 0 && Unit(raw, raw, c, [])
    requires Clean(HUNT, Tail(room, false), raw)
    ensures Run(HUNT, raw) == Outcome(HUNT, [])
    ensures RunTail(HUNT, Tail(room, false), raw) == Tail(room - 1, false)
  {
    hide Flip;
    if |raw| == 1 {
      RunOne(HUNT, Tail(room, false), raw);
    } else {
      RunTwo(HUNT, Tail(room, false), raw);
    }
    hide Run, RunTail, Clean;
  }

  lemma {:induction false} TailIgnored(p: seq<byte>, room: nat)
    requires Clean(HUNT, Tail(room, false), p[..Unescaped(p, room).used])
    ensures Run(HUNT, p[..Unescaped(p, room).used]) == Outcome(HUNT, [])
    decreases |p|
  {
    var piece := Unescaped(p, room);
    UsedIffOut(p, room);
    if piece.out != [] {
      var raw, c, rest := FirstUnit(p, room);
      hide Unescaped, Run, Clean;
      var x := rest[..Unescaped(rest, room - 1).used];
      assert p[..piece.used] == raw + x;
      CleanAppend(HUNT, Tail(room, false), raw, x);
      UnitInTail(room, raw, c);
      TailIgnored(rest, room - 1);
      RunAppend(HUNT, raw, x);
    } else {
      assert p[..0] == [];
    }
  }

  /** What the reference decoder makes of x, against what is then in the code's buffer, v. */
  predicate Matches(d: Dec, t: Tail, x: seq<byte>, v: seq<byte>) {
    var o := Run(d, x);
    if Accepts(v) then
      o == Outcome(HUNT, [FrameOf(v)])
        && (FrameOf(v) == v ==> |v| <= CAPACITY && RunTail(d, t, x) == Tail(CAPACITY - |v|, false))
    else o.frames == [] && Sim(v, o.dec, RunTail(d, t, x))
  }

  lemma MatchesStart(u: seq<byte>, t: Tail)
    requires u != [] && |u| < CAPACITY && !Accepts(u)
    ensures Matches(Dec(u, false), t, [], u)
  {
    hide Accepts, FrameOf;
  }

  /** The unit completes a frame; what else the read holds is ignored. */
  lemma MatchesAccepted(u: seq<byte>, t: Tail, raw: seq<byte>, c: byte, rest: seq<byte>)
    requires u != [] && |u| < CAPACITY && Unit(raw, raw, c, [])
    requires Accepts(u + [c])
    requires var more := Unescaped(rest, CAPACITY - 1 - |u|); Clean(Dec(u, false), t, raw + rest[..more.used])
    ensures var more := Unescaped(rest, CAPACITY - 1 - |u|);
      Matches(Dec(u, false), t, raw + rest[..more.used], u + [c] + more.out)
  {
    var more := Unescaped(rest, CAPACITY - 1 - |u|);
    UsedIffOut(rest, CAPACITY - 1 - |u|);
    UnitInFrame(u, t, raw, c);
    var x := rest[..more.used];
    hide Accepts, FrameOf, Unescaped, Unit, Run, RunTail, Clean, Matches;
    CleanAppend(Dec(u, false), t, raw, x);
    TailIgnored(rest, CAPACITY - 1 - |u|);
    AcceptedJoin(Dec(u, false), t, raw, CAPACITY - 1 - |u|, u + [c], x, more.out);
  }

  lemma AcceptedJoin(d: Dec, t: Tail, raw: seq<byte>, room: nat, v: seq<byte>, x: seq<byte>, out: seq<byte>)
    requires Accepts(v) && Run(d, raw) == Outcome(HUNT, [FrameOf(v)]) && RunTail(d, t, raw) == Tail(room, false)
    requires Run(HUNT, x) == Outcome(HUNT, [])
    requires out == [] ==> x == []
    requires |v| + room == CAPACITY
    ensures Matches(d, t, raw + x, v + out)
  {
    AcceptsPrefix(v, v + out);
    assert |FrameOf(v)| <= |v|;
    assert out == [] ==> raw + x == raw;
    hide Accepts, FrameOf, Run, RunTail;
    RunAppend(d, raw, x);
  }

  /** The unit fills the buffer without completing a frame. */
  lemma MatchesFull(u: seq<byte>, t: Tail, raw: seq<byte>, c: byte)
    requires |u| == CAPACITY - 1 && Unit(raw, raw, c, []) && !Accepts(u + [c])
    ensures Matches(Dec(u, false), t, raw, u + [c])
  {
    UnitInFrame(u, t, raw, c);
    hide Accepts, FrameOf, Unit, Run, RunTail;
  }

  /** The unit just lengthens the frame. */
  lemma MatchesOn(u: seq<byte>, t: Tail, raw: seq<byte>, c: byte, x: seq<byte>, w: seq<byte>)
    requires u != [] && |u| + 1 < CAPACITY && Unit(raw, raw, c, []) && !Accepts(u + [c])
    requires Matches(Dec(u + [c], false), NoTail, x, w)
    ensures Matches(Dec(u, false), t, raw + x, w)
  {
    UnitInFrame(u, t, raw, c);
    hide Accepts, FrameOf, Unit, Run, RunTail, Sim;
    CleanAppend(Dec(u, false), t, raw, x);
    RunAppend(Dec(u, false), raw, x);
  }

  lemma UnitClean(u: seq<byte>, t: Tail, raw: seq<byte>, c: byte, x: seq<byte>)
    requires u != [] && |u| + 1 < CAPACITY && Unit(raw, raw, c, []) && !Accepts(u + [c])
    requires Clean(Dec(u, false), t, raw + x)
    ensures Clean(Dec(u + [c], false), NoTail, x)
  {
    UnitInFrame(u, t, raw, c);
    hide Accepts, FrameOf, Unit, Run, RunTail, Clean;
    CleanAppend(Dec(u, false), t, raw, x);
  }

  /** Filling the buffer from p does to the frame in progress what the reference decoder does. */
  lemma {:induction false} FillSim(u: seq<byte>, t: Tail, p: seq<byte>)
    requires u != [] && |u| < CAPACITY && !Accepts(u)
    requires Clean(Dec(u, false), t, p[..Unescaped(p, CAPACITY - |u|).used])
    ensures var piece := Unescaped(p, CAPACITY - |u|);
      Matches(Dec(u, false), t, p[..piece.used], u + piece.out)
    decreases |p|
  {
    hide Run, RunTail, Clean, Accepts, Matches, Unescaped;
    var room := CAPACITY - |u|;
    var piece := Unescaped(p, room);
    UsedIffOut(p, room);
    if piece.out == [] {
      assert p[..0] == [] && u + [] == u;
      MatchesStart(u, t);
    } else {
      var raw, c, rest := FirstUnit(p, room);
      var more := Unescaped(rest, room - 1);
      assert p[..piece.used] == raw + rest[..more.used];
      assert u + piece.out == u + [c] + more.out;
      if Accepts(u + [c]) {
        MatchesAccepted(u, t, raw, c, rest);
      } else if |u| + 1 < CAPACITY {
        UnitClean(u, t, raw, c, rest[..more.used]);
        FillSim(u + [c], NoTail, rest);
        MatchesOn(u, t, raw, c, rest[..more.used], u + [c] + more.out);
      } else {
        assert more.used == 0 && more.out == [] by { FillFull(rest); }
        assert raw + rest[..0] == raw && u + [c] + [] == u + [c];
        MatchesFull(u, t, raw, c);
      }
    }
  }

  lemma FillFull(rest: seq<byte>)
    ensures Unescaped(rest, 0) == Piece(0, [])
  {}

  // ----- One call of advance_rx -----

  function Taken(before: seq<byte>, after: seq<byte>): seq<byte>
    requires |after| <= |before|
  {
    before[..|before| - |after|]
  }

  /** Reaching a framing byte opens a new frame, whatever the state. */
  lemma FramingOpens(d: Dec, t: Tail, pre: seq<byte>, f: byte)
    requires !d.esc && IsFraming(f) && NoFraming(pre)
    requires d.buf == [] || pre == []
    ensures Run(d, pre + [f]) == Outcome(Dec([f], false), [])
  {
    if d.buf == [] {
      HuntThrough(pre);
      RunAppend(d, pre, [f]);
      RunOne(HUNT, t, [f]);
    } else {
      RunOne(d, t, [f]);
      assert pre + [f] == [f];
    }
    hide Run;
  }

  lemma MatchesAfter(d: Dec, t: Tail, x: seq<byte>, f: byte, y: seq<byte>, v: seq<byte>)
    requires Run(d, x) == Outcome(Dec([f], false), [])
    requires Matches(Dec([f], false), RunTail(d, t, x), y, v)
    ensures Matches(d, t, x + y, v)
  {
    hide Run, RunTail, Clean, Accepts, FrameOf, Sim;
    RunAppend(d, x, y);
    CleanAppend(d, t, x, y);
  }

  lemma TooShort(u: seq<byte>)
    requires |u| < OVERHEAD
    ensures !Accepts(u)
  {}

  lemma SkipParts(p: seq<byte>)
    ensures var q := SkipToFraming(p);
      p == Taken(p, q) + q && NoFraming(Taken(p, q)) && (q == [] ==> Taken(p, q) == p)
    ensures p != [] && IsFraming(p[0]) ==> SkipToFraming(p) != [] && Taken(p, SkipToFraming(p)) == []
    ensures SkipToFraming(p) != [] ==> IsFraming(SkipToFraming(p)[0])
  {
    hide FrameStart, IsFraming;
    var i := FrameStart(p);
    assert Taken(p, SkipToFraming(p)) == p[..i];
  }

  lemma RestartFacts(r: Buffers, d: Dec, t: Tail)
    requires |r.u| <= CAPACITY && Sim(r.u, d, t) && Restarted(r) == []
    ensures var q := SkipToFraming(r.p);
      var pre := Taken(r.p, q);
      && r.p == pre + q && !d.esc && NoFraming(pre)
      && (q == [] ==> d == HUNT && pre == r.p && AdvanceRx(r).rx == IDLE)
      && (q != [] ==> IsFraming(q[0]) && AdvanceRx(r) == FillFrom([q[0]], q[1..]) && (d.buf == [] || pre == []))
  {
    SkipParts(r.p);
    hide Accepts, FillFrom, SkipToFraming, NoFraming, IsFraming, Taken;
  }

  lemma IdleMatches(t: Tail, p: seq<byte>)
    requires NoFraming(p)
    ensures Matches(HUNT, t, p, [])
  {
    hide Run, RunTail, Accepts;
    TooShort([]);
    HuntThrough(p);
  }

  /** advance_rx when it has to look for the start of a frame. */
  lemma RestartSim(r: Buffers, d: Dec, t: Tail)
    requires |r.u| <= CAPACITY && Sim(r.u, d, t) && Restarted(r) == []
    requires var a := AdvanceRx(r).rx; |a.p| <= |r.p| && Clean(d, t, Taken(r.p, a.p))
    ensures var a := AdvanceRx(r).rx;
      r.p == Taken(r.p, a.p) + a.p && Matches(d, t, Taken(r.p, a.p), a.u)
  {
    RestartFacts(r, d, t);
    hide Sim, Restarted, SkipToFraming, Clean, Matches, AdvanceRx, FillFrom, NoFraming;
    var q := SkipToFraming(r.p);
    var pre := Taken(r.p, q);
    if q == [] {
      IdleMatches(t, r.p);
      assert Taken(r.p, []) == r.p && r.p + [] == r.p;
    } else {
      HeadTail(q);
      FramingOpens(d, t, pre, q[0]);
      RestartFill(r, d, t, pre, q[0], q[1..]);
    }
  }

  lemma RestartFill(r: Buffers, d: Dec, t: Tail, pre: seq<byte>, f: byte, rest: seq<byte>)
    requires r.p == pre + ([f] + rest)
    requires Run(d, pre + [f]) == Outcome(Dec([f], false), [])
    requires var a := FillFrom([f], rest).rx; |a.p| <= |r.p| && Clean(d, t, Taken(r.p, a.p))
    ensures var a := FillFrom([f], rest).rx;
      r.p == Taken(r.p, a.p) + a.p && Matches(d, t, Taken(r.p, a.p), a.u)
  {
    var piece := Unescaped(rest, CAPACITY - 1);
    var y := rest[..piece.used];
    var a := FillFrom([f], rest).rx;
    assert Taken(r.p, a.p) == pre + [f] + y;
    assert r.p == Taken(r.p, a.p) + a.p;
    hide Run, RunTail, Clean, Accepts, Unescaped, Matches, IsFraming;
    CleanAppend(d, t, pre + [f], y);
    TooShort([f]);
    FillSim([f], RunTail(d, t, pre + [f]), rest);
    MatchesAfter(d, t, pre + [f], f, y, a.u);
  }

  lemma AdvanceSim(r: Buffers, d: Dec, t: Tail)
    requires |r.u| <= CAPACITY && Sim(r.u, d, t)
    requires var a := AdvanceRx(r).rx; |a.p| <= |r.p| && Clean(d, t, Taken(r.p, a.p))
    ensures var a := AdvanceRx(r).rx;
      r.p == Taken(r.p, a.p) + a.p && Matches(d, t, Taken(r.p, a.p), a.u)
  {
    if Restarted(r) == [] {
      RestartSim(r, d, t);
    } else {
      assert r.u != [] && |r.u| < CAPACITY && AdvanceRx(r) == FillFrom(r.u, r.p);
      hide Run, RunTail, Clean, Accepts, Unescaped, Matches, AdvanceRx, Restarted;
      FillTakes(r.u, r.p);
      FillSim(r.u, t, r.p);
    }
  }

  lemma FillTakes(u: seq<byte>, p: seq<byte>)
    requires |u| <= CAPACITY
    ensures var a := FillFrom(u, p).rx;
      |a.p| <= |p| && Taken(p, a.p) == p[..Unescaped(p, CAPACITY - |u|).used] && p == Taken(p, a.p) + a.p
  {
    hide Unescaped;
  }

  /** When advance_rx reports nothing new, the frame in progress is not complete. */
  lemma NothingNew(r: Buffers, d: Dec, t: Tail)
    requires |r.u| <= CAPACITY && Sim(r.u, d, t) && !AdvanceRx(r).more
    ensures !Accepts(AdvanceRx(r).rx.u)
  {
    var q := SkipToFraming(r.p);
    assert r.u + [] == r.u;
    if Restarted(r) == [] {
      TooShort([]);
      if q != [] {
        assert [q[0]] + [] == [q[0]];
        TooShort([q[0]]);
      }
    }
    hide Accepts, SkipToFraming;
  }

  // ----- One callback, and any number of them -----

  /** The state the reference decoder would be in with u as the frame in progress. */
  function DecOf(u: seq<byte>): Dec {
    if |u| >= CAPACITY then HUNT else Dec(u, false)
  }

  /** What a callback consumed, the reference decoder decodes to the same frames and state. */
  predicate Agrees(d: Dec, t: Tail, before: seq<byte>, after: Drained) {
    && |after.rx.p| <= |before|
    && var x := Taken(before, after.rx.p);
    && before == x + after.rx.p
    && Run(d, x).frames == after.frames
    && Sim(after.rx.u, Run(d, x).dec, RunTail(d, t, x))
  }

  lemma AgreesOnce(d: Dec, t: Tail, before: seq<byte>, rx: Buffers)
    requires |rx.p| <= |before| && before == Taken(before, rx.p) + rx.p
    requires Matches(d, t, Taken(before, rx.p), rx.u) && !Accepts(rx.u)
    ensures Agrees(d, t, before, Drained(rx, []))
  {
    hide Run, RunTail, Accepts, Sim;
  }

  lemma AgreesThen(d: Dec, t: Tail, before: seq<byte>, mid: Buffers, u: seq<byte>, frames: seq<seq<byte>>,
    after: Drained)
    requires |mid.p| <= |before| && before == Taken(before, mid.p) + mid.p
    requires var x := Taken(before, mid.p);
      Run(d, x).frames == frames && Agrees(Run(d, x).dec, RunTail(d, t, x), mid.p, after)
    ensures Agrees(d, t, before, Drained(after.rx, frames + after.frames))
  {
    var x, y := Taken(before, mid.p), Taken(mid.p, after.rx.p);
    hide Run, RunTail, Sim;
    ConcatAssoc(x, y, after.rx.p);
    assert Taken(before, after.rx.p) == x + y;
    RunAppend(d, x, y);
    CleanAppend(d, t, x, y);
  }

  lemma {:induction false} DrainSim(r: Buffers, d: Dec, t: Tail)
    requires |r.u| <= CAPACITY && Sim(r.u, d, t) && Clean(d, t, r.p)
    ensures Agrees(d, t, r.p, Drain(r))
    decreases |r.p|
  {
    AdvanceProgress(r);
    var a := AdvanceRx(r);
    var x := Taken(r.p, a.rx.p);
    CleanAppend(d, t, x, r.p[|r.p| - |a.rx.p|..]);
    assert r.p == x + r.p[|r.p| - |a.rx.p|..];
    AdvanceSim(r, d, t);
    var d', t' := Run(d, x).dec, RunTail(d, t, x);
    if !a.more {
      NothingNew(r, d, t);
      hide Agrees, AdvanceRx, Taken, Run, RunTail, Clean, Accepts, Sim, Matches;
      AgreesOnce(d, t, r.p, a.rx);
    } else if Accepts(a.rx.u) {
      var rest := Drain(Buffers([], a.rx.p));
      assert Sim([], d', t');
      hide Agrees, AdvanceRx, Taken, Run, RunTail, Clean, Accepts, Sim;
      DrainSim(Buffers([], a.rx.p), d', t');
      AgreesThen(d, t, r.p, a.rx, [], [FrameOf(a.rx.u)], rest);
    } else {
      assert Sim(a.rx.u, d', t');
      hide Agrees, AdvanceRx, Taken, Run, RunTail, Clean, Accepts, Sim;
      DrainSim(a.rx, d', t');
      AgreesThen(d, t, r.p, a.rx, a.rx.u, [], Drain(a.rx));
      assert [] + Drain(a.rx).frames == Drain(a.rx).frames;
    }
  }
}
