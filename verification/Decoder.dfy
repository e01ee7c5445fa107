/** A reference decoder that looks at one received byte at a time. */
module Decoder {
  import opened Bytes
  import opened Escape
  import opened Frame

  /** The unescaped bytes of the frame being received ([] while hunting for a framing byte),
      and whether the last byte was an escape. */
  datatype Dec = Dec(buf: seq<byte>, esc: bool)

  datatype Outcome = Outcome(dec: Dec, frames: seq<seq<byte>>)

  const HUNT := Dec([], false)
  const CAPACITY := OVERHEAD + PAYLOAD_MAX

  /** Takes one unescaped byte into the frame: a valid frame is delivered, a full buffer abandoned. */
  function Take(buf: seq<byte>, b: byte): Outcome {
    var u := buf + [b];
    if Accepts(u) then Outcome(HUNT, [FrameOf(u)])
    else if |u| >= CAPACITY then Outcome(HUNT, [])
    else Outcome(Dec(u, false), [])
  }

  function Step(d: Dec, b: byte): Outcome {
    if d.buf == [] then Outcome(if IsFraming(b) then Dec([b], false) else HUNT, [])
    else if d.esc then Take(d.buf, Flip(b))
    else if b == ESC then Outcome(Dec(d.buf, true), [])
    else if IsFraming(b) then Outcome(Dec([b], false), [])
    else Take(d.buf, b)
  }

  function Run(d: Dec, s: seq<byte>): Outcome
    decreases |s|
  {
    if s == [] then Outcome(d, [])
    else
      var o := Step(d, s[0]);
      var r := Run(o.dec, s[1..]);
      Outcome(r.dec, o.frames + r.frames)
  }

  lemma {:induction false} RunAppend(d: Dec, x: seq<byte>, y: seq<byte>)
    ensures var m := Run(d, x);
      Run(d, x + y) == Outcome(Run(m.dec, y).dec, m.frames + Run(m.dec, y).frames)
    decreases |x|
  {
    hide Step;
    if x == [] {
      assert x + y == y;
    } else {
      assert (x + y)[1..] == x[1..] + y;
      RunAppend(Step(d, x[0]).dec, x[1..], y);
    }
  }

  // ----- The tail of a read: what may follow a delivered frame -----

  /** After a frame is delivered, the code may already have unescaped up to `room` bytes that follow
      it in the same read; `esc` says whether the last of them was an escape. */
  datatype Tail = NoTail | Tail(room: nat, esc: bool)

  function NextTail(d: Dec, t: Tail, b: byte): Tail {
    if d.buf != [] then
      if Step(d, b).frames != [] && |d.buf| < CAPACITY then Tail(CAPACITY - 1 - |d.buf|, false) else NoTail
    else if t.NoTail? || t.room == 0 then NoTail
    else if t.esc then (if IsFraming(b) then NoTail else Tail(t.room - 1, false))
    else if b == ESC then Tail(t.room, true)
    else if IsFraming(b) then NoTail
    else Tail(t.room - 1, false)
  }

  /** b is a framing byte that the code may swallow as the second half of an escape
      although no frame is being received. */
  predicate Swallowed(d: Dec, t: Tail, b: byte) {
    d.buf == [] && t.Tail? && t.room > 0 && t.esc && IsFraming(b)
  }

  /** No framing byte of s can be swallowed. */
  predicate Clean(d: Dec, t: Tail, s: seq<byte>)
    decreases |s|
  {
    s == [] || (!Swallowed(d, t, s[0]) && Clean(Step(d, s[0]).dec, NextTail(d, t, s[0]), s[1..]))
  }

  function RunTail(d: Dec, t: Tail, s: seq<byte>): Tail
    decreases |s|
  {
    if s == [] then t else RunTail(Step(d, s[0]).dec, NextTail(d, t, s[0]), s[1..])
  }

  lemma {:induction false} CleanAppend(d: Dec, t: Tail, x: seq<byte>, y: seq<byte>)
    ensures Clean(d, t, x + y) <==> Clean(d, t, x) && Clean(Run(d, x).dec, RunTail(d, t, x), y)
    ensures RunTail(d, t, x + y) == RunTail(Run(d, x).dec, RunTail(d, t, x), y)
    decreases |x|
  {
    hide Step, NextTail, Swallowed;
    if x == [] {
      assert x + y == y;
    } else {
      assert (x + y)[1..] == x[1..] + y;
      CleanAppend(Step(d, x[0]).dec, NextTail(d, t, x[0]), x[1..], y);
    }
  }

  lemma RunOne(d: Dec, t: Tail, s: seq<byte>)
    requires |s| == 1
    ensures Run(d, s) == Step(d, s[0])
    ensures RunTail(d, t, s) == NextTail(d, t, s[0])
    ensures Clean(d, t, s) <==> !Swallowed(d, t, s[0])
  {
    hide Step, NextTail, Swallowed;
    assert s[1..] == [];
    assert Step(d, s[0]).frames + [] == Step(d, s[0]).frames;
  }

  lemma RunTwo(d: Dec, t: Tail, s: seq<byte>)
    requires |s| == 2
    ensures var o := Step(d, s[0]);
      var r := Step(o.dec, s[1]);
      Run(d, s) == Outcome(r.dec, o.frames + r.frames)
    ensures RunTail(d, t, s) == NextTail(Step(d, s[0]).dec, NextTail(d, t, s[0]), s[1])
    ensures Clean(d, t, s) <==>
      !Swallowed(d, t, s[0]) && !Swallowed(Step(d, s[0]).dec, NextTail(d, t, s[0]), s[1])
  {
    hide Step, NextTail, Swallowed;
    RunOne(Step(d, s[0]).dec, NextTail(d, t, s[0]), s[1..]);
  }

  /** No framing byte directly follows an escape byte. */
  predicate NoEscapedFraming(s: seq<byte>) {
    forall i :: 0 < i < |s| && s[i - 1] == ESC ==> !IsFraming(s[i])
  }

  /** The simple condition that senders meet is enough. */
  lemma {:induction false} NoEscapedFramingIsClean(d: Dec, t: Tail, s: seq<byte>)
    requires NoEscapedFraming(s)
    requires d.buf == [] && t.Tail? && t.esc && s != [] ==> !IsFraming(s[0])
    ensures Clean(d, t, s)
    decreases |s|
  {
    if s != [] {
      assert NoEscapedFraming(s[1..]) by {
        assert forall i :: 0 < i < |s[1..]| ==> s[1..][i - 1] == s[i] && s[1..][i] == s[i + 1];
      }
      assert NextTail(d, t, s[0]).Tail? && NextTail(d, t, s[0]).esc ==> s[0] == ESC;
      hide Step, NextTail, IsFraming, NoEscapedFraming;
      if |s| > 1 {
        assert s[1..][0] == s[1];
        assert s[0] == ESC ==> !IsFraming(s[1]);
      }
      NoEscapedFramingIsClean(Step(d, s[0]).dec, NextTail(d, t, s[0]), s[1..]);
    }
  }
}
