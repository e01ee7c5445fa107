/** Byte stuffing (sricd/escape.c). */
module Escape {
  import opened Bytes

  // ----- Specification -----

  function EscapeByte(b: byte): seq<byte> {
    if b == 0x7E then [ESC, 0x5E]
    else if b == 0x7D then [ESC, 0x5D]
    else if b == 0x8E then [ESC, 0xAE]
    else [b]
  }

  function Escaped(s: seq<byte>): seq<byte> {
    if s == [] then [] else Escaped(s[..|s| - 1]) + EscapeByte(s[|s| - 1])
  }

  /** b ^ 0x20. */
  function Flip(b: byte): byte { if b / 0x20 % 2 == 0 then b + 0x20 else b - 0x20 }

  lemma FlipPairs()
    ensures Flip(0x5E) == 0x7E && Flip(0x5D) == 0x7D && Flip(0xAE) == 0x8E
  {}

  /** How much of the source was used, and what it unescaped to. */
  datatype Piece = Piece(used: nat, out: seq<byte>)

  function Prepend(n: nat, front: seq<byte>, p: Piece): Piece {
    Piece(n + p.used, front + p.out)
  }

  /** What unescape reads from s when there is room for `room` bytes: it stops at a framing byte,
      at a lone escape byte, and when the room is filled. */
  function Unescaped(s: seq<byte>, room: nat): (p: Piece)
    ensures p.used <= |s| && |p.out| <= room && |p.out| <= p.used
    decreases |s|
  {
    if s == [] || room == 0 then Piece(0, [])
    else if s[0] == ESC then
      if |s| == 1 then Piece(0, [])
      else Prepend(2, [Flip(s[1])], Unescaped(s[2..], room - 1))
    else if IsFraming(s[0]) then Piece(0, [])
    else Prepend(1, [s[0]], Unescaped(s[1..], room - 1))
  }

  function Lead(front: seq<byte>, t: Option<seq<byte>>): Option<seq<byte>> {
    if t.None? then None else Some(front + t.value)
  }

  /** What unescape_frame makes of a whole buffer; it knows only two of the three escapes. */
  function FrameUnescaped(s: seq<byte>): Option<seq<byte>>
    decreases |s|
  {
    if s == [] then Some([])
    else if s[0] == ESC then
      if |s| == 1 then None
      else if s[1] == 0x5E then Lead([0x7E], FrameUnescaped(s[2..]))
      else if s[1] == 0x5D then Lead([0x7D], FrameUnescaped(s[2..]))
      else None
    else Lead([s[0]], FrameUnescaped(s[1..]))
  }

  // ----- Properties of the stuffing -----

  lemma {:induction false} EscapedAppend(x: seq<byte>, y: seq<byte>)
    ensures Escaped(x + y) == Escaped(x) + Escaped(y)
    decreases |y|
  {
    hide EscapeByte;
    if y == [] {
      assert x + y == x;
    } else {
      assert (x + y)[..|x + y| - 1] == x + y[..|y| - 1];
      EscapedAppend(x, y[..|y| - 1]);
    }
  }

  lemma EscapedCons(s: seq<byte>)
    requires s != []
    ensures Escaped(s) == EscapeByte(s[0]) + Escaped(s[1..])
  {
    hide EscapeByte;
    HeadTail(s);
    var one := [s[0]];
    EscapedAppend(one, s[1..]);
    assert one[..0] == [];
    assert Escaped(one) == Escaped([]) + EscapeByte(s[0]);
  }

  lemma {:induction false} EscapedSize(s: seq<byte>)
    ensures |s| <= |Escaped(s)| <= 2 * |s|
  {
    if s != [] {
      EscapedSize(s[..|s| - 1]);
    }
  }

  lemma {:induction false} EscapedPrefixSize(s: seq<byte>, n: nat)
    requires n <= |s|
    ensures |Escaped(s[..n])| + (|s| - n) <= |Escaped(s)|
    decreases |s|
  {
    if n < |s| {
      assert s[..|s| - 1][..n] == s[..n];
      EscapedPrefixSize(s[..|s| - 1], n);
    } else {
      assert s[..n] == s;
    }
  }

  /** Stuffed data never contains a framing byte. */
  lemma {:induction false} EscapedHasNoFraming(s: seq<byte>)
    ensures NoFraming(Escaped(s))
  {
    if s != [] {
      EscapedHasNoFraming(s[..|s| - 1]);
    }
  }

  lemma UnescapeOne(b: byte, rest: seq<byte>, room: nat)
    requires room > 0
    ensures var r := Unescaped(rest, room - 1);
      Unescaped(EscapeByte(b) + rest, room) == Prepend(|EscapeByte(b)|, [b], r)
  {
    FlipPairs();
    hide Flip;
    var e := EscapeByte(b);
    assert (e + rest)[|e|..] == rest;
  }

  lemma PrependJoin(n: nat, b: byte, k: nat, front: seq<byte>, p: Piece)
    ensures Prepend(n, [b], Prepend(k, front, p)) == Prepend(n + k, [b] + front, p)
    ensures Prepend(0, [], p) == p
  {
    assert [b] + (front + p.out) == [b] + front + p.out;
    assert [] + p.out == p.out;
  }

  /** Unescaping recovers stuffed data that fits, and then goes on with what follows it. */
  lemma {:induction false} UnescapeInverts(s: seq<byte>, tail: seq<byte>, room: nat)
    requires |s| <= room
    ensures Unescaped(Escaped(s) + tail, room) == Prepend(|Escaped(s)|, s, Unescaped(tail, room - |s|))
    decreases |s|
  {
    hide EscapeByte, Prepend;
    if s == [] {
      assert Escaped(s) + tail == tail;
      PrependJoin(0, 0, 0, [], Unescaped(tail, room));
    } else {
      hide Unescaped, Escaped;
      EscapedCons(s);
      UnescapeInverts(s[1..], tail, room - 1);
      ConcatAssoc(EscapeByte(s[0]), Escaped(s[1..]), tail);
      UnescapeOne(s[0], Escaped(s[1..]) + tail, room);
      HeadTail(s);
      PrependJoin(|EscapeByte(s[0])|, s[0], |Escaped(s[1..])|, s[1..], Unescaped(tail, room - |s|));
    }
  }

  lemma FrameUnescapeOne(b: byte, rest: seq<byte>)
    ensures FrameUnescaped(EscapeByte(b) + rest) == if b == 0x8E then None else Lead([b], FrameUnescaped(rest))
  {
    var e := EscapeByte(b);
    assert (e + rest)[|e|..] == rest;
  }

  /** unescape_frame inverts the stuffing exactly when the data has no 0x8E. */
  lemma {:induction false} FrameUnescapeInverts(s: seq<byte>)
    ensures FrameUnescaped(Escaped(s)) == if 0x8E in s then None else Some(s)
    decreases |s|
  {
    if s != [] {
      EscapedCons(s);
      FrameUnescapeInverts(s[1..]);
      FrameUnescapeOne(s[0], Escaped(s[1..]));
      HeadTail(s);
      hide FrameUnescaped, Escaped, EscapeByte;
    }
  }

  // ----- The in-place loops -----

  /** Writes e into the buffer from `at`. */
  method Write(data: array<byte>, at: nat, e: seq<byte>)
    requires at + |e| <= data.Length
    modifies data
    ensures data[at..at + |e|] == e
    ensures forall i :: 0 <= i < data.Length && !(at <= i < at + |e|) ==> data[i] == old(data[i])
  {
    forall i | 0 <= i < |e| {
      data[at + i] := e[i];
    }
  }

  /** One iteration of the stuffing loop: the REQUIRE_SPACE check, then one or two bytes. */
  method EmitEscaped(data: array<byte>, off: nat, destIndex: nat, b: byte, maxlength: nat)
    returns (ok: bool, next: nat)
    requires off + maxlength <= data.Length && off + destIndex <= data.Length
    modifies data
    ensures next == destIndex + |EscapeByte(b)|
    ensures ok <==> next < maxlength
    ensures ok ==> off + next <= data.Length
    ensures ok ==> data[off..off + next] == old(data[off..off + destIndex]) + EscapeByte(b)
    ensures forall i :: 0 <= i < data.Length && !(ok && off + destIndex <= i < off + next) ==> data[i] == old(data[i])
  {
    var e := [b];
    if b == 0x7E {
      e := [0x7D, 0x5E];
    } else if b == 0x7D {
      e := [0x7D, 0x5D];
    } else if b == 0x8E {
      e := [0x7D, 0xAE];
    }
    EscapeBytes(b);
    hide EscapeByte;
    next := destIndex + |e|;
    ok := next < maxlength;
    if ok {
      Write(data, off + destIndex, e);
      assert data[off..off + next] == data[off..off + destIndex] + data[off + destIndex..off + next];
    }
  }

  /** The stuffing loop, reading from the copy src and writing over the original. */
  method EscapeLoop(data: array<byte>, off: nat, src: seq<byte>, maxlength: nat) returns (ok: bool, destIndex: nat)
    requires off + maxlength <= data.Length
    modifies data
    ensures ok <==> src == [] || |Escaped(src)| < maxlength
    ensures ok ==> off + destIndex <= data.Length && data[off..off + destIndex] == Escaped(src)
    ensures forall i :: 0 <= i < data.Length && !(off <= i < off + maxlength) ==> data[i] == old(data[i])
  {
    var sourceIndex := 0;
    ok, destIndex := true, 0;
    assert src[..|src|] == src;
    assert Escaped(src[..0]) == [];
    hide Escaped, EscapeByte;
    while sourceIndex < |src|
      invariant 0 <= sourceIndex <= |src|
      invariant destIndex < maxlength || sourceIndex == 0
      invariant off + destIndex <= data.Length
      invariant data[off..off + destIndex] == Escaped(src[..sourceIndex])
      invariant forall i :: 0 <= i < data.Length && !(off <= i < off + maxlength) ==> data[i] == old(data[i])
    {
      EscapedStep(src, sourceIndex);
      ok, destIndex := EmitEscaped(data, off, destIndex, src[sourceIndex], maxlength);
      if !ok {
        return;
      }
      sourceIndex := sourceIndex + 1;
    }
  }

  /** What an int16_t makes of a number. */
  function AsInt16(n: int): (r: int)
    ensures -0x8000 <= r < 0x8000 && (0 <= n < 0x8000 ==> r == n)
  {
    (n + 0x8000) % 0x1_0000 - 0x8000
  }

  /** Stuffs data[off..off + length] in place. Fails, restoring those bytes, unless every step
      leaves at least one byte of the maxlength unused. The length is returned as an int16_t. */
  method EscapeFrame(data: array<byte>, off: nat, length: nat, maxlength: nat) returns (r: int)
    requires off + length <= data.Length && off + maxlength <= data.Length
    modifies data
    ensures var e := Escaped(old(data[off..off + length]));
      if length == 0 || |e| < maxlength then
        r == AsInt16(|e|) && off + |e| <= data.Length && data[off..off + |e|] == e
      else
        r == -1 && data[off..off + length] == old(data[off..off + length])
    ensures forall i :: 0 <= i < data.Length && !(off <= i < off + length) && !(off <= i < off + maxlength) ==>
      data[i] == old(data[i])
  {
    var src := data[off..off + length];
    var ok, destIndex := EscapeLoop(data, off, src, maxlength);
    assert length == 0 ==> Escaped(src) == [];
    hide Escaped;
    if ok {
      assert |data[off..off + destIndex]| == destIndex;
      r := AsInt16(destIndex);
    } else {
      Write(data, off, src);
      r := -1;
    }
  }

  lemma EscapeBytes(b: byte)
    ensures EscapeByte(0x7E) == [0x7D, 0x5E] && EscapeByte(0x7D) == [0x7D, 0x5D] && EscapeByte(0x8E) == [0x7D, 0xAE]
    ensures b != 0x7E && b != 0x7D && b != 0x8E ==> EscapeByte(b) == [b]
  {}

  lemma EscapedStep(src: seq<byte>, k: nat)
    requires k < |src|
    ensures Escaped(src[..k + 1]) == Escaped(src[..k]) + EscapeByte(src[k])
    ensures |Escaped(src[..k])| + |EscapeByte(src[k])| <= |Escaped(src)|
  {
    assert src[..k + 1][..k] == src[..k];
    EscapedPrefixSize(src, k + 1);
  }

  lemma UnescapedStep(t: seq<byte>, room: nat)
    requires t != [] && room > 0
    ensures t[0] == ESC && |t| == 1 ==> Unescaped(t, room) == Piece(0, [])
    ensures t[0] == ESC && |t| > 1 ==>
      Unescaped(t, room) == Prepend(2, [Flip(t[1])], Unescaped(t[2..], room - 1))
    ensures t[0] != ESC && IsFraming(t[0]) ==> Unescaped(t, room) == Piece(0, [])
    ensures t[0] != ESC && !IsFraming(t[0]) ==>
      Unescaped(t, room) == Prepend(1, [t[0]], Unescaped(t[1..], room - 1))
  {}

  lemma UnescapedStops(t: seq<byte>, room: nat)
    requires t == [] || room == 0 || t == [ESC] || IsFraming(t[0])
    ensures Unescaped(t, room) == Piece(0, [])
  {}

  lemma PrependEnd(n: nat, front: seq<byte>)
    ensures Prepend(n, front, Piece(0, [])) == Piece(n, front)
  {
    assert front + [] == front;
  }

  lemma PrependTwice(s: nat, front: seq<byte>, k: nat, b: byte, p: Piece)
    ensures Prepend(s, front, Prepend(k, [b], p)) == Prepend(s + k, front + [b], p)
  {}

  /** Unescapes src into dest[off..off + destlen]; src is the caller's read-only view of its buffer. */
  method Unescape(src: seq<byte>, dest: array<byte>, off: nat, destlen: nat) returns (spos: nat, dpos: nat)
    requires off + destlen <= dest.Length
    modifies dest
    ensures dpos <= destlen
    ensures Piece(spos, dest[off..off + dpos]) == Unescaped(src, destlen)
    ensures forall i :: 0 <= i < dest.Length && !(off <= i < off + dpos) ==> dest[i] == old(dest[i])
  {
    hide Flip, IsFraming, Unescaped, Prepend;
    spos, dpos := 0, 0;
    assert src[spos..] == src;
    assert dest[off..off + dpos] == [];
    PrependJoin(0, 0, 0, [], Unescaped(src, destlen));
    while spos < |src| && dpos < destlen
      invariant spos <= |src| && dpos <= destlen
      invariant Unescaped(src, destlen) == Prepend(spos, dest[off..off + dpos], Unescaped(src[spos..], destlen - dpos))
      invariant forall i :: 0 <= i < dest.Length && !(off <= i < off + dpos) ==> dest[i] == old(dest[i])
    {
      ghost var before, now, was := dest[off..off + dpos], src[spos..], spos;
      UnescapedStep(now, destlen - dpos);
      if src[spos] == 0x7D {
        if 1 + spos == |src| {
          break;
        }
        spos := spos + 1;
        dest[off + dpos] := Flip(src[spos]);
        assert now[2..] == src[spos + 1..];
      } else if IsFraming(src[spos]) {
        break;
      } else {
        dest[off + dpos] := src[spos];
        assert now[1..] == src[spos + 1..];
      }
      spos := spos + 1;
      dpos := dpos + 1;
      PrependTwice(was, before, spos - was, dest[off + dpos - 1], Unescaped(src[spos..], destlen - dpos));
      assert dest[off..off + dpos] == before + [dest[off + dpos - 1]];
    }
    UnescapedStops(src[spos..], destlen - dpos);
    PrependEnd(spos, dest[off..off + dpos]);
  }

  lemma LeadTwice(front: seq<byte>, b: byte, t: Option<seq<byte>>)
    ensures Lead(front, Lead([b], t)) == Lead(front + [b], t)
    ensures Lead([], t) == t
  {
    if t.Some? {
      assert front + ([b] + t.value) == front + [b] + t.value;
      assert [] + t.value == t.value;
    }
  }

  /** The whole-frame variant, source and destination in the same buffer. */
  method UnescapeFrame(data: array<byte>, length: nat) returns (ok: bool, outlength: nat)
    requires length <= data.Length
    modifies data
    ensures ok <==> FrameUnescaped(old(data[..length])).Some?
    ensures ok ==> outlength <= length && FrameUnescaped(old(data[..length])) == Some(data[..outlength])
    ensures forall i :: length <= i < data.Length ==> data[i] == old(data[i])
  {
    ghost var s := data[..length];
    var source, dest := 0, 0;
    LeadTwice([], 0, FrameUnescaped(s));
    assert s[source..] == s;
    assert data[..dest] == [];
    while source != length
      invariant dest <= source <= length
      invariant forall i :: source <= i < length ==> data[i] == s[i]
      invariant forall i :: length <= i < data.Length ==> data[i] == old(data[i])
      invariant FrameUnescaped(s) == Lead(data[..dest], FrameUnescaped(s[source..]))
      decreases length - source
    {
      ghost var before, now := data[..dest], s[source..];
      var current := data[source];
      assert current == now[0];
      source := source + 1;
      assert now[1..] == s[source..];
      if current == 0x7D {
        if source == length {
          return false, 0;
        }
        current := data[source];
        assert current == now[1];
        source := source + 1;
        assert now[2..] == s[source..];
        if current == 0x5E {
          data[dest] := 0x7E;
        } else if current == 0x5D {
          data[dest] := 0x7D;
        } else {
          return false, 0;
        }
      } else {
        data[dest] := current;
      }
      dest := dest + 1;
      assert data[..dest] == before + [data[dest - 1]];
      LeadTwice(before, data[dest - 1], FrameUnescaped(s[source..]));
    }
    assert s[length..] == [] && data[..dest] + [] == data[..dest];
    ok, outlength := true, dest;
  }
}
