/** The transmit side of sricd/sric-if.c as a state machine: one step per callback. */
module TxModel {
  import opened Bytes
  import opened Encoding
  import opened OutputQueue

  /** `wire` is the encoding in txbuf and `pos` how much of it is written; `timers` are the live glib
      timeout sources, `timerId` the remembered one, `nextTimer` the id glib hands out next. */
  datatype Tx = Tx(high: seq<TxFrame>, low: seq<TxFrame>,
                   frame: Option<TxFrame>, wire: seq<byte>, pos: nat,
                   watch: bool, timers: set<nat>, timerId: nat, nextTimer: nat,
                   enumerated: bool, cancelled: bool)

  const START := Tx([], [], None, [], 0, false, {}, 0, 1, false, false)

  datatype Event =
    | Push(f: TxFrame, pri: nat)
    | Writable(count: nat)                         // the port takes up to count bytes
    | Expire(id: nat)                              // a retransmission timer fires
    | Ack(pushes: seq<TxFrame>, done: bool)        // an ack arrives; what the enumeration code does with it
    | Cancel(tag: Tag)

  predicate AllFramesValid(q: seq<TxFrame>) {
    forall f :: f in q ==> f.Valid()
  }

  predicate WellFormed(t: Tx) {
    AllFramesValid(t.high) && AllFramesValid(t.low)
  }

  /** Something is queued that may be sent now. */
  predicate Eligible(t: Tx) {
    t.high != [] || (t.enumerated && t.low != [])
  }

  predicate AwaitingAck(t: Tx) {
    t.frame.Some? && t.pos == |t.wire|
  }

  function Loaded(t: Tx, f: TxFrame): Tx
    requires f.Valid()
  {
    t.(frame := Some(f), wire := Encode(f.ToMessage()), pos := 0, cancelled := false)
  }

  /** next_tx, when there is something to send. */
  function NextTx(t: Tx): Tx
    requires WellFormed(t) && Eligible(t)
  {
    if t.high != [] then Loaded(t, t.high[0]).(high := t.high[1..])
    else Loaded(t, t.low[0]).(low := t.low[1..])
  }

  /** What the port takes of the bytes that are left, if it takes up to `count`. */
  function Gone(t: Tx, count: nat): seq<byte>
    requires t.pos <= |t.wire|
  {
    t.wire[t.pos..t.pos + Min(count, |t.wire| - t.pos)]
  }

  /** if_tx once there is a frame with bytes left to write. */
  function Written(t: Tx, count: nat): Tx
    requires t.frame.Some? && t.pos <= |t.wire|
  {
    var t1 := t.(pos := t.pos + Min(count, |t.wire| - t.pos));
    if t1.pos != |t.wire| then t1
    else if t.frame.value.Unanswered() then t1.(frame := None)
    else t1.(timers := t.timers + {t.nextTimer}, timerId := t.nextTimer, nextTimer := t.nextTimer + 1, watch := false)
  }

  function OnWritable(t: Tx, count: nat): Tx
    requires WellFormed(t) && t.pos <= |t.wire|
  {
    if AwaitingAck(t) || (t.frame.None? && !Eligible(t)) then t.(watch := false)
    else if t.frame.None? then Written(NextTx(t), count)
    else Written(t, count)
  }

  /** The bytes that leave by a write callback. */
  function GoneOnWritable(t: Tx, count: nat): seq<byte>
    requires WellFormed(t) && t.pos <= |t.wire|
  {
    if AwaitingAck(t) || (t.frame.None? && !Eligible(t)) then []
    else if t.frame.None? then Gone(NextTx(t), count)
    else Gone(t, count)
  }

  function OnExpire(t: Tx, id: nat): Tx {
    t.(frame := if t.cancelled then None else t.frame, pos := 0, watch := true, timers := t.timers - {id})
  }

  function OnAck(t: Tx, pushes: seq<TxFrame>, done: bool): Tx {
    if t.frame.None? then t
    else
      var t1 := t.(timers := t.timers - {t.timerId}, timerId := 0, watch := true, frame := None);
      if t.cancelled || t.enumerated then t1
      else t1.(high := t.high + pushes, enumerated := done)
  }

  /** The tag of the frame whose response an ack hands to a client. */
  function Delivered(t: Tx): Option<Tag> {
    if t.frame.Some? && !t.cancelled && t.enumerated then Some(t.frame.value.tag) else None
  }

  function OnPush(t: Tx, f: TxFrame, pri: nat): Tx {
    if pri == 0 then t.(high := t.high + [f], watch := true) else t.(low := t.low + [f], watch := true)
  }

  function OnCancel(t: Tx, tag: Tag): Tx {
    t.(high := Without(t.high, tag), low := Without(t.low, tag),
       cancelled := t.cancelled || (t.frame.Some? && t.frame.value.tag == tag))
  }

  /** When the main loop can deliver the event. */
  predicate Enabled(t: Tx, e: Event) {
    match e
    case Push(f, pri) => f.Valid() && pri < 2
    case Writable(_) => t.watch
    case Expire(id) => id in t.timers
    case Ack(pushes, _) => AllFramesValid(pushes)
    case Cancel(_) => true
  }

  function Step(t: Tx, e: Event): Tx
    requires WellFormed(t) && t.pos <= |t.wire| && Enabled(t, e)
  {
    match e
    case Push(f, pri) => OnPush(t, f, pri)
    case Writable(count) => OnWritable(t, count)
    case Expire(id) => OnExpire(t, id)
    case Ack(pushes, done) => OnAck(t, pushes, done)
    case Cancel(tag) => OnCancel(t, tag)
  }

  // ----- The transmitter never stalls -----

  /** The retransmission timer is armed exactly while a completely written frame awaits its ack,
      and no other timer is live. */
  predicate OneTimer(t: Tx) {
    && t.timers == (if AwaitingAck(t) then {t.timerId} else {})
    && t.timerId < t.nextTimer
  }

  /** Whenever there is something to write, the write callback is registered. */
  predicate Watched(t: Tx) {
    && (t.frame.Some? && t.pos < |t.wire| ==> t.watch)
    && (t.frame.None? && Eligible(t) ==> t.watch)
  }

  /** txbuf holds the stuffed encoding of the frame in flight. */
  predicate WireIsFrame(t: Tx) {
    && t.pos <= |t.wire|
    && (t.frame.Some? ==> t.frame.value.Valid() && t.wire == Encode(t.frame.value.ToMessage()) && |t.wire| > 0)
  }

  predicate Sound(t: Tx) {
    WellFormed(t) && OneTimer(t) && Watched(t) && WireIsFrame(t)
  }

  lemma LoadedSound(t: Tx, f: TxFrame)
    requires Sound(t) && t.frame.None? && t.watch && f.Valid()
    ensures Sound(Loaded(t, f))
  {
    hide Encode;
    assert |Encode(f.ToMessage())| > 0 by { EncodeNonEmpty(f.ToMessage()); }
    hide AllFramesValid;
  }

  lemma EncodeNonEmpty(m: Message)
    requires m.Valid()
    ensures |Encode(m)| > 0
  {
    hide Raw;
  }

  lemma NextTxSound(t: Tx)
    requires Sound(t) && t.frame.None? && t.watch && Eligible(t)
    ensures Sound(NextTx(t)) && NextTx(t).frame.Some? && NextTx(t).pos < |NextTx(t).wire| && NextTx(t).watch
  {
    var f := if t.high != [] then t.high[0] else t.low[0];
    LoadedSound(t, f);
    hide Encode;
  }

  lemma WrittenSound(t: Tx, count: nat)
    requires Sound(t) && t.frame.Some? && t.pos < |t.wire| && t.watch
    ensures Sound(Written(t, count))
  {
    hide AllFramesValid, Encode;
  }

  /** Every callback, in every state reachable so far, keeps the transmitter live. */
  lemma StepSound(t: Tx, e: Event)
    requires Sound(t) && Enabled(t, e)
    ensures Sound(Step(t, e))
  {
    hide Encode;
    match e
    case Push(f, pri) => PushSound(t, f, pri);
    case Writable(count) =>
      hide AllFramesValid;
      if AwaitingAck(t) || (t.frame.None? && !Eligible(t)) {
      } else if t.frame.None? {
        NextTxSound(t);
        WrittenSound(NextTx(t), count);
      } else {
        WrittenSound(t, count);
      }
    case Expire(id) => hide AllFramesValid;
    case Ack(pushes, done) => AckSound(t, pushes, done);
    case Cancel(tag) =>
  }

  lemma PushSound(t: Tx, f: TxFrame, pri: nat)
    requires Sound(t) && f.Valid() && pri < 2
    ensures Sound(OnPush(t, f, pri))
  {
    hide Encode;
  }

  lemma AckSound(t: Tx, pushes: seq<TxFrame>, done: bool)
    requires Sound(t) && AllFramesValid(pushes)
    ensures Sound(OnAck(t, pushes, done))
  {
    hide Encode;
  }
}
