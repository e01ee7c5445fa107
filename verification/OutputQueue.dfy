/** The two-priority transmit queue (sricd/output-queue.c). */
module OutputQueue {
  import opened Bytes
  import opened Frame
  import opened Encoding

  /** The `tag` pointer of a queued frame: null for responses, a client, or the marker that the
      enumeration code uses to ask for an acknowledgement. */
  datatype Tag = NoTag | EnumTag | ClientTag(client: nat)

  /** A heap-allocated queue entry; `id` stands for its address, which no two entries share. */
  datatype TxFrame = TxFrame(id: nat, kind: byte, address: int, tag: Tag, payload: seq<byte>) {
    predicate Valid() {
      IsFraming(kind) && |payload| <= PAYLOAD_MAX
    }

    function ToMessage(): Message {
      Message(kind, address % 256, payload)
    }

    /** An ack, or a frame whose sender wants no response, is not waited for. */
    predicate Unanswered() {
      tag == NoTag || address / 128 % 2 == 1
    }
  }

  /** What a list of frames puts on the wire. */
  function Messages(fs: seq<TxFrame>): seq<Message> {
    if fs == [] then [] else Messages(fs[..|fs| - 1]) + [fs[|fs| - 1].ToMessage()]
  }

  function Without(q: seq<TxFrame>, tag: Tag): (r: seq<TxFrame>)
    ensures forall f :: f in r <==> f in q && f.tag != tag
  {
    if q == [] then [] else (if q[0].tag == tag then [] else [q[0]]) + Without(q[1..], tag)
  }

  lemma {:induction false} WithoutAppend(x: seq<TxFrame>, y: seq<TxFrame>, tag: Tag)
    ensures Without(x + y, tag) == Without(x, tag) + Without(y, tag)
    decreases |x|
  {
    if x == [] {
      assert x + y == y;
    } else {
      assert (x + y)[1..] == x[1..] + y;
      WithoutAppend(x[1..], y, tag);
    }
  }

  /** Entries are listed from the tail of the GQueue to its head, oldest first. */
  class TxQueue {
    var high: seq<TxFrame>
    var low: seq<TxFrame>

    constructor ()
      ensures high == [] && low == []
    {
      high, low := [], [];
    }

    /** The queue of one priority. */
    function At(pri: nat): seq<TxFrame>
      reads this
    {
      if pri == 0 then high else low
    }

    /** The oldest entry of the highest non-empty priority not above maxPri. */
    function Due(maxPri: nat): Option<TxFrame>
      reads this
    {
      if high != [] then Some(high[0]) else if maxPri > 0 && low != [] then Some(low[0]) else None
    }

    method PushHead(f: TxFrame, pri: nat)
      requires pri < 2
      modifies this
      ensures high == if pri == 0 then old(high) + [f] else old(high)
      ensures low == if pri == 1 then old(low) + [f] else old(low)
    {
      if pri == 0 {
        high := high + [f];
      } else {
        low := low + [f];
      }
    }

    /** Takes out what is due. */
    method Next(maxPri: nat) returns (f: Option<TxFrame>)
      requires maxPri < 2
      modifies this
      ensures f == old(Due(maxPri))
      ensures high == if old(high) != [] then old(high)[1..] else []
      ensures low == if old(high) == [] && f.Some? then old(low)[1..] else old(low)
    {
      f := None;
      var i := 0;
      while i <= maxPri
        invariant 0 <= i <= maxPri + 1
        invariant high == old(high) && low == old(low)
        invariant f == None && (i > 0 ==> high == []) && (i > 1 ==> low == [])
      {
        var q := if i == 0 then high else low;
        if q != [] {
          f := Some(q[0]);
          if i == 0 {
            high := high[1..];
          } else {
            low := low[1..];
          }
          return;
        }
        i := i + 1;
      }
    }

    /** Whether taking from the queue, at either limit, would find nothing. */
    method Empty() returns (empty: bool)
      ensures empty <==> forall maxPri: nat :: maxPri < 2 ==> Due(maxPri) == None
    {
      var i := 0;
      while i < 2
        invariant 0 <= i <= 2
        invariant (i > 0 ==> high == []) && (i > 1 ==> low == [])
      {
        if At(i) != [] {
          assert Due(i) != None;
          return false;
        }
        i := i + 1;
      }
      empty := true;
    }

    /** Removes every entry with this tag, from both queues. */
    method Cancel(tag: Tag)
      modifies this
      ensures high == Without(old(high), tag) && low == Without(old(low), tag)
    {
      var h := RemoveTagged(high, tag);
      var l := RemoveTagged(low, tag);
      high, low := h, l;
    }
  }

  /** Removes one entry, found by looking from the head. */
  method RemoveEntry(q: seq<TxFrame>, f: TxFrame, ghost older: seq<TxFrame>, ghost newer: seq<TxFrame>)
    returns (r: seq<TxFrame>)
    requires q == older + ([f] + newer) && f !in newer
    ensures r == older + newer
  {
    var i := |q| - 1;
    while i > 0 && q[i] != f
      invariant |older| <= i < |q|
    {
      i := i - 1;
    }
    assert q[i] == f && i == |older|;
    r := q[..i] + q[i + 1..];
  }

  lemma WithoutFrom(q: seq<TxFrame>, i: nat, tag: Tag)
    requires i < |q|
    ensures Without(q[i..], tag) == (if q[i].tag == tag then [] else [q[i]]) + Without(q[i + 1..], tag)
    ensures q[..i + 1] == q[..i] + [q[i]]
  {
    assert q[i..][1..] == q[i + 1..];
  }

  /** Walks the queue from its head, taking out entries while it goes. */
  method RemoveTagged(q: seq<TxFrame>, tag: Tag) returns (r: seq<TxFrame>)
    ensures r == Without(q, tag)
  {
    r := q;
    var i := |q|;
    assert q[..i] == q && q[i..] == [] && Without([], tag) == [];
    hide Without;
    while i > 0
      invariant 0 <= i <= |q|
      invariant r == q[..i] + Without(q[i..], tag)
    {
      i := i - 1;
      WithoutFrom(q, i, tag);
      ghost var kept := Without(q[i + 1..], tag);
      ConcatAssoc(q[..i], [q[i]], kept);
      if q[i].tag == tag {
        assert q[i] !in kept;
        r := RemoveEntry(r, q[i], q[..i], kept);
        assert [] + kept == kept;
      }
    }
    assert q[0..] == q;
    assert q[..0] + Without(q, tag) == Without(q, tag);
  }
}
