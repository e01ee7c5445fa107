/** Shared vocabulary: bytes, framing bytes and the option type. */
module Bytes {

  type byte = x: int | 0 <= x < 256

  datatype Option<+T> = None | Some(value: T)

  const ESC: byte := 0x7D
  const FRAME_SRIC: byte := 0x7E
  const FRAME_GW_CONF: byte := 0x8E

  /** The two bytes that may only appear unescaped at the start of a frame. */
  predicate IsFraming(b: byte) {
    b == FRAME_SRIC || b == FRAME_GW_CONF
  }

  predicate NoFraming(s: seq<byte>) {
    forall i :: 0 <= i < |s| ==> !IsFraming(s[i])
  }

  function Min(a: nat, b: nat): nat {
    if a <= b then a else b
  }

  lemma ConcatAssoc<T>(a: seq<T>, b: seq<T>, c: seq<T>)
    ensures a + b + c == a + (b + c)
  {}

  lemma HeadTail<T>(s: seq<T>)
    requires s != []
    ensures s == [s[0]] + s[1..]
  {}
}
