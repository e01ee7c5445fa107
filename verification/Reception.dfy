/** The receiver over whole runs: any stream, cut into any reads. */
module Reception {
  import opened Bytes
  import opened Escape
  import opened Frame
  import opened Decoder
  import opened RxModel

  function Concat(chunks: seq<seq<byte>>): seq<byte> {
    if chunks == [] then [] else chunks[0] + Concat(chunks[1..])
  }

  /** One callback per chunk. */
  function Reads(r: Buffers, chunks: seq<seq<byte>>): Drained
    requires |r.u| <= CAPACITY
    decreases |chunks|
  {
    if chunks == [] then Drained(r, [])
    else
      DrainBounds(Buffers(r.u, r.p + chunks[0]));
      var one := Callback(r, chunks[0]);
      var rest := Reads(one.rx, chunks[1..]);
      Drained(rest.rx, one.frames + rest.frames)
  }

  lemma ReadsNone(r: Buffers)
    requires |r.u| <= CAPACITY
    ensures Reads(r, []) == Drained(r, []) && Concat([]) == []
  {}

  lemma {:induction false} ReadsSnoc(r: Buffers, cs: seq<seq<byte>>, c: seq<byte>)
    requires |r.u| <= CAPACITY
    ensures var d := Reads(r, cs);
      |d.rx.u| <= CAPACITY && Reads(r, cs + [c]) == Drained(Callback(d.rx, c).rx, d.frames + Callback(d.rx, c).frames)
    decreases |cs|
  {
    hide Drain;
    if cs == [] {
      assert cs + [c] == [c] && [c][1..] == [];
      DrainBounds(Buffers(r.u, r.p + c));
      assert Callback(r, c).frames + [] == Callback(r, c).frames;
      assert [] + Callback(r, c).frames == Callback(r, c).frames;
    } else {
      assert (cs + [c])[1..] == cs[1..] + [c];
      DrainBounds(Buffers(r.u, r.p + cs[0]));
      var one := Callback(r, cs[0]);
      ReadsSnoc(one.rx, cs[1..], c);
      ConcatAssoc(one.frames, Reads(one.rx, cs[1..]).frames, Callback(Reads(one.rx, cs[1..]).rx, c).frames);
    }
  }

  lemma {:induction false} ConcatSnoc(cs: seq<seq<byte>>, c: seq<byte>)
    ensures Concat(cs + [c]) == Concat(cs) + c
    decreases |cs|
  {
    if cs == [] {
      assert cs + [c] == [c] && [c][1..] == [];
    } else {
      assert (cs + [c])[1..] == cs[1..] + [c];
      ConcatSnoc(cs[1..], c);
    }
  }

  lemma NothingRead(d: Dec, t: Tail, r: Buffers)
    requires Sim(r.u, d, t)
    ensures Agrees(d, t, r.p, Drained(r, []))
  {
    assert Taken(r.p, r.p) == [] && [] + r.p == r.p;
    hide Sim;
  }

  lemma {:induction false} ReadsSim(r: Buffers, d: Dec, t: Tail, chunks: seq<seq<byte>>)
    requires |r.u| <= CAPACITY && Sim(r.u, d, t) && Clean(d, t, r.p + Concat(chunks))
    ensures Agrees(d, t, r.p + Concat(chunks), Reads(r, chunks))
    decreases |chunks|
  {
    if chunks == [] {
      assert r.p + Concat(chunks) == r.p;
      NothingRead(d, t, r);
    } else {
      var all, first, later := r.p + Concat(chunks), r.p + chunks[0], Concat(chunks[1..]);
      ConcatAssoc(r.p, chunks[0], later);
      hide Run, RunTail, Clean, Sim, Drain;
      CleanAppend(d, t, first, later);
      DrainSim(Buffers(r.u, first), d, t);
      var one := Callback(r, chunks[0]);
      var x := Taken(first, one.rx.p);
      DrainBounds(Buffers(r.u, first));
      ConcatAssoc(x, one.rx.p, later);
      assert Taken(all, one.rx.p + later) == x;
      CleanAppend(d, t, x, one.rx.p + later);
      ReadsSim(one.rx, Run(d, x).dec, RunTail(d, t, x), chunks[1..]);
      AgreesThen(d, t, all, Buffers([], one.rx.p + later), [], one.frames, Reads(one.rx, chunks[1..]));
    }
  }

  lemma SimDec(u: seq<byte>, d: Dec, t: Tail)
    requires Sim(u, d, t)
    ensures d == DecOf(u)
  {
    hide Accepts;
  }

  /** The frames delivered so far, followed by what the reference decoder makes of the bytes still
      in rxbuf, are what it makes of the whole stream; and so is the state it ends in. */
  lemma Refinement(chunks: seq<seq<byte>>)
    requires Clean(HUNT, NoTail, Concat(chunks))
    ensures var d := Reads(IDLE, chunks);
      var rest := Run(DecOf(d.rx.u), d.rx.p);
      Run(HUNT, Concat(chunks)) == Outcome(rest.dec, d.frames + rest.frames)
  {
    var s, d := Concat(chunks), Reads(IDLE, chunks);
    assert [] + s == s;
    ReadsSim(IDLE, HUNT, NoTail, chunks);
    var x := Taken(s, d.rx.p);
    SimDec(d.rx.u, Run(HUNT, x).dec, RunTail(HUNT, NoTail, x));
    hide Run, Reads, Concat, Sim, Clean;
    RunAppend(HUNT, x, d.rx.p);
  }

  // ----- What can be left in rxbuf -----

  predicate NoAdjacentFraming(s: seq<byte>) {
    forall i :: 0 < i < |s| && IsFraming(s[i - 1]) ==> !IsFraming(s[i])
  }

  /** Bytes stay behind after a callback only if they are a lone escape,
      or a framing byte that directly followed another one. */
  predicate Leftover(r: Buffers) {
    r.p == [] || r.p == [ESC] || (IsFraming(r.p[0]) && |r.u| == 1 && IsFraming(r.u[0]))
  }

  lemma StopLeftover(u: seq<byte>, p: seq<byte>)
    requires u != [] && |u| < CAPACITY && Unescaped(p, CAPACITY - |u|).out == []
    requires p != [] && IsFraming(p[0]) ==> |u| == 1 && IsFraming(u[0])
    ensures Leftover(FillFrom(u, p).rx)
  {
    UsedIffOut(p, CAPACITY - |u|);
    assert p[0..] == p && u + [] == u;
  }

  lemma AdvanceLeftover(r: Buffers)
    requires |r.u| <= CAPACITY && !AdvanceRx(r).more
    ensures Leftover(AdvanceRx(r).rx)
  {
    var q := SkipToFraming(r.p);
    SkipParts(r.p);
    if Restarted(r) != [] {
      hide Leftover, SkipToFraming, IsFraming, Unescaped;
      StopLeftover(r.u, r.p);
    } else if q != [] {
      hide Leftover, SkipToFraming, IsFraming, Unescaped;
      StopLeftover([q[0]], q[1..]);
    }
  }

  lemma {:induction false} DrainLeftover(r: Buffers)
    requires |r.u| <= CAPACITY
    ensures Leftover(Drain(r).rx)
    decreases |r.p|
  {
    AdvanceProgress(r);
    var a := AdvanceRx(r);
    if !a.more {
      AdvanceLeftover(r);
    } else {
      hide AdvanceRx, Accepts, FrameOf, Leftover;
      DrainLeftover(if Accepts(a.rx.u) then Buffers([], a.rx.p) else a.rx);
    }
  }

  lemma {:induction false} ReadsLeftover(r: Buffers, chunks: seq<seq<byte>>)
    requires |r.u| <= CAPACITY && Leftover(r)
    ensures Leftover(Reads(r, chunks).rx)
    decreases |chunks|
  {
    if chunks != [] {
      hide Drain, Leftover;
      DrainBounds(Buffers(r.u, r.p + chunks[0]));
      DrainLeftover(Buffers(r.u, r.p + chunks[0]));
      ReadsLeftover(Callback(r, chunks[0]).rx, chunks[1..]);
    }
  }
}
