/** One application's conversation with the daemon: both of its queues, and every kind of request, share one
    socket, from which each libsric call reads its answer (sricd/ipc.c, libsric/sric.c). */
module Session {
  import opened Bytes
  import D = Delivery
  import opened Ipc
  import opened DeviceList
  import opened Libsric

  type RxFrame = D.RxFrame

  datatype Kind = Responses | Notes

  /** A libsric call. `id` is what glib would call a new timer; a command other than a poll is given with the
      daemon's answer to it. */
  datatype Call = Poll(kind: Kind, timeout: int, id: nat) | Command(result: byte) | ListDevices(ds: seq<Device>)

  datatype Answer = Polled(r: D.Reply) | Result(result: byte) | Listed(ds: seq<Device>)

  datatype Outcome = PollEnded(o: PollOutcome) | CommandEnded(error: SricError) | DevicesGot(ds: Option<seq<Device>>)

  function AnswerBytes(a: Answer): seq<byte> {
    match a
    case Polled(r) => ReplyBytes(r)
    case Result(b) => [b]
    case Listed(ds) => ListBytes(ds)
  }

  /** What the call makes of the bytes it finds, and what it leaves unread. */
  function Take(c: Call, input: seq<byte>): (Outcome, seq<byte>) {
    match c
    case Poll(_, _, _) => (PollEnded(PollAnswer(input).0), PollAnswer(input).1)
    case Command(_) =>
      if input == [] then (CommandEnded(Sricd), []) else (CommandEnded(ErrorOf(input[0])), input[1..])
    case ListDevices(_) => (DevicesGot(RefreshAnswer(true, input)), AfterList(input))
  }

  function AfterList(input: seq<byte>): seq<byte> {
    if input == [] then []
    else if input[0] != E_SUCCESS then input[1..]
    else if |input| < 3 then []
    else
      var n := OfBe16(input[1], input[2]);
      if |input| < 3 + 4 * n then [] else input[3 + 4 * n..]
  }

  /** What the answer says. */
  function Meaning(a: Answer): Outcome {
    match a
    case Polled(r) => PollEnded(Ipc.Outcome(r))
    case Result(b) => CommandEnded(ErrorOf(b))
    case Listed(ds) => DevicesGot(Some(ds + [SENTINEL]))
  }

  /** Waiting for the daemon's answer, or answered and about to read. */
  datatype Pending = Idle | Waiting(c: Call) | Answered(c: Call, a: Answer)

  /** A call that has returned, with the daemon's answer to it if there was one by then. */
  datatype Return = Return(c: Call, own: Option<Answer>, o: Outcome)

  datatype Session = Session(responses: D.Side, notes: D.Side, pending: Pending, unread: seq<byte>,
                             returned: seq<Return>, arrivedResponses: seq<RxFrame>, arrivedNotes: seq<RxFrame>)

  const START := Session(D.EMPTY, D.EMPTY, Idle, [], [], [], [])

  datatype Event = Ask(c: Call) | Arrives(kind: Kind, f: RxFrame) | Expires(kind: Kind, id: nat) | Reads

  function SideOf(s: Session, k: Kind): D.Side { if k == Responses then s.responses else s.notes }

  function Arrived(s: Session, k: Kind): seq<RxFrame> { if k == Responses then s.arrivedResponses else s.arrivedNotes }

  predicate WaitsFor(p: Pending, k: Kind) { p.Waiting? && p.c.Poll? && p.c.kind == k }

  /** One side acts: a reply is written to the socket, and answers the poll of that side if one waits. */
  function OnSide(s: Session, k: Kind, de: D.Event): Session {
    var (side, rs) := D.Step(SideOf(s, k), de);
    var s1 := if k == Responses then s.(responses := side) else s.(notes := side);
    if rs == [] then s1
    else s1.(unread := s.unread + ReplyBytes(rs[0]),
             pending := if WaitsFor(s.pending, k) then Answered(s.pending.c, Polled(rs[0])) else s.pending)
  }

  /** The event as one side sees it. */
  function SideEvent(e: Event, k: Kind): Option<D.Event> {
    match e
    case Ask(Poll(kind, timeout, id)) => if kind == k then Some(D.Poll(timeout, id)) else None
    case Arrives(kind, f) => if kind == k then Some(D.Push(f)) else None
    case Expires(kind, id) => if kind == k then Some(D.Expire(id)) else None
    case _ => None
  }

  predicate ListFits(ds: seq<Device>) {
    |ds| < 0x1_0000 && forall d :: d in ds ==> Fits(d)
  }

  /** An idle application may call; a call that has been made reads as soon as there is something to read. */
  predicate Enabled(s: Session, e: Event) {
    match e
    case Ask(c) =>
      s.pending.Idle? && (c.Poll? ==> D.Enabled(SideOf(s, c.kind), D.Poll(c.timeout, c.id)))
      && (c.ListDevices? ==> ListFits(c.ds))
    case Arrives(_, f) => f.Valid()
    case Expires(k, id) => id in SideOf(s, k).timers
    case Reads => !s.pending.Idle? && s.unread != []
  }

  function Next(s: Session, e: Event): Session
    requires Enabled(s, e)
  {
    match e
    case Ask(Poll(k, timeout, id)) => OnSide(s.(pending := Waiting(e.c)), k, D.Poll(timeout, id))
    case Ask(Command(b)) => s.(pending := Answered(e.c, Result(b)), unread := s.unread + [b])
    case Ask(ListDevices(ds)) => s.(pending := Answered(e.c, Listed(ds)), unread := s.unread + ListBytes(ds))
    case Arrives(k, f) =>
      var s1 := if k == Responses then s.(arrivedResponses := s.arrivedResponses + [f])
                else s.(arrivedNotes := s.arrivedNotes + [f]);
      OnSide(s1, k, D.Push(f))
    case Expires(k, id) => OnSide(s, k, D.Expire(id))
    case Reads =>
      var (o, rest) := Take(s.pending.c, s.unread);
      var own := if s.pending.Answered? then Some(s.pending.a) else None;
      s.(pending := Idle, unread := rest, returned := s.returned + [Return(s.pending.c, own, o)])
  }

  predicate Legal(s: Session, es: seq<Event>)
    decreases |es|
  {
    es == [] || (Enabled(s, es[0]) && Legal(Next(s, es[0]), es[1..]))
  }

  function After(s: Session, es: seq<Event>): Session
    requires Legal(s, es)
    decreases |es|
  {
    if es == [] then s else After(Next(s, es[0]), es[1..])
  }

  // ----- What an application expects -----

  /** The socket holds the answer to the call in progress, once it is given, and nothing else. */
  predicate InStep(s: Session) {
    s.unread == if s.pending.Answered? then AnswerBytes(s.pending.a) else []
  }

  /** Every call that returned was answered, and returned what its own answer says. */
  predicate OwnAnswers(s: Session) {
    forall x :: x in s.returned ==> x.own.Some? && x.o == Meaning(x.own.value)
  }

  function GotBy(xs: seq<Return>, k: Kind): seq<PollOutcome> {
    if xs == [] then [] else
      var x := xs[|xs| - 1];
      GotBy(xs[..|xs| - 1], k) + if x.c.Poll? && x.c.kind == k && x.o.PollEnded? && x.o.o.Got? then [x.o.o] else []
  }

  /** The frame in an answer that is not read yet. */
  function InAnswer(p: Pending, k: Kind): seq<PollOutcome> {
    if p.Answered? && p.c.Poll? && p.c.kind == k && p.a.Polled? then AsReceived(D.Frames([p.a.r])) else []
  }

  /** The frames that polls returned, the one just sent and those still queued are those that came from the bus. */
  predicate Balanced(s: Session, k: Kind) {
    GotBy(s.returned, k) + InAnswer(s.pending, k) + AsReceived(SideOf(s, k).queue) == AsReceived(Arrived(s, k))
  }

  predicate AlwaysInStep(s: Session, es: seq<Event>)
    requires Legal(s, es)
    decreases |es|
  {
    InStep(s) && (es == [] || AlwaysInStep(Next(s, es[0]), es[1..]))
  }

  predicate AlwaysBalanced(s: Session, es: seq<Event>)
    requires Legal(s, es)
    decreases |es|
  {
    Balanced(s, Responses) && Balanced(s, Notes) && (es == [] || AlwaysBalanced(Next(s, es[0]), es[1..]))
  }

  function OfKind(es: seq<Event>, k: Kind): seq<D.Event> {
    if es == [] then []
    else
      var de := SideEvent(es[0], k);
      (if de.Some? then [de.value] else []) + OfKind(es[1..], k)
  }

  /** On neither side does a frame come in after a poll expired and before the application asks to wait again. */
  predicate NoLateArrival(es: seq<Event>) {
    D.NoLatePush(OfKind(es, Responses)) && D.NoLatePush(OfKind(es, Notes))
  }

  // ----- The invariant as long as nothing is late -----

  predicate QueueValid(q: seq<RxFrame>) {
    forall f :: f in q ==> f.Valid()
  }

  /** One side, given whether its poll waits and whether a ping is left over. */
  predicate SideFine(side: D.Side, waits: bool, stale: bool) {
    && D.Inv(side) && D.OneTimer(waits, side) && (stale <==> side.ping && !waits) && QueueValid(side.queue)
  }

  /** The pending call and its answer belong together, and a call that waits is a poll. */
  predicate PendingFine(p: Pending) {
    match p
    case Idle => true
    case Waiting(c) => c.Poll?
    case Answered(c, a) => Suits(c, a)
  }

  predicate Suits(c: Call, a: Answer) {
    match c
    case Poll(_, _, _) => a.Polled? && (a.r.Delivered? ==> a.r.f.Valid())
    case Command(_) => a.Result?
    case ListDevices(_) => a.Listed? && ListFits(a.ds)
  }

  /** Whether a ping is left over, on each side. */
  datatype Leftover = Leftover(responses: bool, notes: bool)

  function LeftOn(l: Leftover, k: Kind): bool { if k == Responses then l.responses else l.notes }

  function NextOn(l: Leftover, e: Event, k: Kind): bool {
    var de := SideEvent(e, k);
    if de.Some? then D.NextStale(LeftOn(l, k), de.value) else LeftOn(l, k)
  }

  function NextLeft(l: Leftover, e: Event): Leftover { Leftover(NextOn(l, e, Responses), NextOn(l, e, Notes)) }

  predicate KindFine(s: Session, l: Leftover, k: Kind) {
    SideFine(SideOf(s, k), WaitsFor(s.pending, k), LeftOn(l, k)) && Balanced(s, k)
  }

  predicate Fine(s: Session, l: Leftover) {
    && InStep(s) && OwnAnswers(s) && PendingFine(s.pending)
    && KindFine(s, l, Responses) && KindFine(s, l, Notes)
  }

  predicate IsLate(l: Leftover, e: Event) {
    e.Arrives? && LeftOn(l, e.kind)
  }

  // ----- Reading -----

  lemma TakeOwn(c: Call, a: Answer)
    requires Suits(c, a)
    ensures Take(c, AnswerBytes(a)) == (Meaning(a), [])
    ensures AnswerBytes(a) != []
  {
    hide RefreshAnswer, AfterList, ListFits, PollAnswer, ReplyBytes, ListBytes;
    match a
    case Polled(r) => TakeReply(r);
    case Result(b) => assert [b][1..] == [];
    case Listed(ds) => TakeList(ds);
  }

  lemma TakeReply(r: D.Reply)
    requires r.Delivered? ==> r.f.Valid()
    ensures PollAnswer(ReplyBytes(r)) == (Ipc.Outcome(r), []) && ReplyBytes(r) != []
  {
    PollRoundTrip(r, []);
    hide PollAnswer;
    assert ReplyBytes(r) + [] == ReplyBytes(r);
  }

  lemma TakeList(ds: seq<Device>)
    requires ListFits(ds)
    ensures RefreshAnswer(true, ListBytes(ds)) == Some(ds + [SENTINEL])
    ensures AfterList(ListBytes(ds)) == [] && ListBytes(ds) != []
  {
    EntriesRoundTrip(ds);
    RefreshParts(|ds|, Entries(ds));
    Be16RoundTrip(|ds|);
    ListParts(|ds|, Entries(ds));
    hide Entries, EntriesRead, RefreshAnswer, AfterList, Be16;
  }

  lemma ListParts(n: nat, body: seq<byte>)
    requires n < 0x1_0000 && |body| == 4 * n
    ensures AfterList([E_SUCCESS] + Be16(n) + body) == []
  {
    hide Be16, OfBe16;
    var input := [E_SUCCESS] + Be16(n) + body;
    Be16RoundTrip(n);
    assert input[1] == Be16(n)[0] && input[2] == Be16(n)[1];
  }

  lemma GotLast(xs: seq<Return>, x: Return, k: Kind)
    ensures GotBy(xs + [x], k)
         == GotBy(xs, k) + if x.c.Poll? && x.c.kind == k && x.o.PollEnded? && x.o.o.Got? then [x.o.o] else []
  {
    assert (xs + [x])[..|xs|] == xs;
  }

  /** A frame moves from the answer to what polls returned. */
  lemma InAnswerGot(c: Call, a: Answer, k: Kind)
    requires Suits(c, a)
    ensures InAnswer(Answered(c, a), k)
         == if c.Poll? && c.kind == k && Meaning(a).PollEnded? && Meaning(a).o.Got? then [Meaning(a).o] else []
  {
    hide D.Frames;
    if a.Polled? {
      D.FramesOne(a.r);
      if a.r.Delivered? {
        AsReceivedOne(a.r.f);
      }
    }
  }

  lemma NextReads(s: Session)
    requires InStep(s) && PendingFine(s.pending) && Enabled(s, Reads)
    ensures s.pending.Answered? && Suits(s.pending.c, s.pending.a)
    ensures var x := Return(s.pending.c, Some(s.pending.a), Meaning(s.pending.a));
      Next(s, Reads) == s.(pending := Idle, unread := [], returned := s.returned + [x])
  {
    TakeOwn(s.pending.c, s.pending.a);
    hide Take, AnswerBytes, Meaning, Suits;
  }

  lemma ReadStep(s: Session, l: Leftover)
    requires Fine(s, l) && Enabled(s, Reads)
    ensures Fine(Next(s, Reads), l) && NextLeft(l, Reads) == l
  {
    NextReads(s);
    var x := Return(s.pending.c, Some(s.pending.a), Meaning(s.pending.a));
    var s' := Next(s, Reads);
    hide Next, AnswerBytes, Meaning, KindFine, Suits, Enabled, OwnAnswers;
    OneMoreOwn(s, s', x);
    ReadKind(s, s', l, x, Responses);
    ReadKind(s, s', l, x, Notes);
  }

  lemma ReadKind(s: Session, s': Session, l: Leftover, x: Return, k: Kind)
    requires KindFine(s, l, k) && s.pending.Answered? && Suits(s.pending.c, s.pending.a)
    requires x == Return(s.pending.c, Some(s.pending.a), Meaning(s.pending.a))
    requires s' == s.(pending := Idle, unread := [], returned := s.returned + [x])
    ensures KindFine(s', l, k)
  {
    hide SideFine, Balanced, Meaning, Suits;
    ReadBalance(s, s', x, k);
  }

  lemma OneMoreOwn(s: Session, s': Session, x: Return)
    requires OwnAnswers(s) && s'.returned == s.returned + [x] && x.own.Some? && x.o == Meaning(x.own.value)
    ensures OwnAnswers(s')
  {
    hide Meaning;
  }

  lemma ReadBalance(s: Session, s': Session, x: Return, k: Kind)
    requires Balanced(s, k) && s.pending.Answered? && Suits(s.pending.c, s.pending.a)
    requires x == Return(s.pending.c, Some(s.pending.a), Meaning(s.pending.a))
    requires s' == s.(pending := Idle, unread := [], returned := s.returned + [x])
    ensures Balanced(s', k)
  {
    InAnswerGot(s.pending.c, s.pending.a, k);
    GotLast(s.returned, x, k);
    assert InAnswer(Idle, k) == [];
    hide GotBy, AsReceived, InAnswer, Meaning, Suits;
    assert GotBy(s'.returned, k) + [] == GotBy(s'.returned, k);
  }

  // ----- Other commands -----

  lemma CommandStep(s: Session, l: Leftover, e: Event)
    requires Fine(s, l) && Enabled(s, e) && e.Ask? && !e.c.Poll?
    ensures Fine(Next(s, e), l) && NextLeft(l, e) == l
  {
    hide ListBytes, ListFits, SideFine, GotBy, AsReceived, D.Frames;
    assert [] + ListBytes(if e.c.ListDevices? then e.c.ds else [])
      == ListBytes(if e.c.ListDevices? then e.c.ds else []);
  }

  // ----- One side acts -----

  /** What a side does in one event, unless a frame is late. */
  lemma SideStep(side: D.Side, w: bool, stale: bool, de: D.Event)
    requires SideFine(side, w, stale) && D.Enabled(side, de) && (de.Poll? ==> !w) && (de.Push? ==> de.f.Valid())
    ensures var (side', rs) := D.Step(side, de);
      && SideFine(side', D.Waiting(w, side, de), D.NextStale(stale, de))
      && |rs| <= 1 && (rs != [] && rs[0].Delivered? ==> rs[0].f.Valid())
      && D.Frames(rs) + side'.queue == side.queue + (if de.Push? then [de.f] else [])
      && (if de.Push? && stale then rs != [] && !w
          else (rs != [] ==> w || de.Poll?) && (D.Waiting(w, side, de) <==> rs == [] && (w || de.Poll?)))
  {
    D.StepTimers(w, side, de);
    D.StaleStep(w, side, de);
    D.StepDelivers(side, de);
    StepValid(side, de);
    hide D.Frames, D.OneTimer, D.Inv, D.NextStale;
  }

  lemma {:induction false} AsReceivedOne(f: RxFrame)
    ensures AsReceived([f]) == [Got(f.source, f.note, f.payload)]
  {
    assert [f][1..] == [];
  }

  lemma BalanceMoves(got: seq<PollOutcome>, ina: seq<PollOutcome>, ina': seq<PollOutcome>, rs: seq<D.Reply>,
                     q: seq<RxFrame>, q': seq<RxFrame>, more: seq<RxFrame>, arrived: seq<RxFrame>)
    requires got + ina + AsReceived(q) == AsReceived(arrived)
    requires D.Frames(rs) + q' == q + more
    requires if rs == [] then ina' == ina else ina == [] && ina' == AsReceived(D.Frames(rs))
    ensures got + ina' + AsReceived(q') == AsReceived(arrived + more)
  {
    AsReceivedAppend(arrived, more);
    AsReceivedAppend(q, more);
    AsReceivedAppend(D.Frames(rs), q');
    assert rs == [] ==> D.Frames(rs) + q' == q';
    hide AsReceived, D.Frames;
    Reassociate(got, ina, ina', AsReceived(q), AsReceived(q'), AsReceived(more), AsReceived(D.Frames(rs)), rs == []);
  }

  lemma Reassociate<T>(got: seq<T>, ina: seq<T>, ina': seq<T>, q: seq<T>, q': seq<T>, more: seq<T>, sent: seq<T>,
    none: bool)
    requires if none then ina' == ina && q' == q + more else ina == [] && ina' == sent && sent + q' == q + more
    ensures got + ina' + q' == got + ina + q + more
  {
    if none {
      ConcatAssoc(got + ina, q, more);
    } else {
      assert got + [] == got;
      ConcatAssoc(got, q, more);
      ConcatAssoc(got, sent, q');
    }
  }

  function Other(k: Kind): Kind { if k == Responses then Notes else Responses }

  /** The state that the side acts in. */
  function Before(s: Session, e: Event): Session {
    match e
    case Ask(c) => s.(pending := Waiting(c))
    case Arrives(k, f) =>
      if k == Responses then s.(arrivedResponses := s.arrivedResponses + [f])
      else s.(arrivedNotes := s.arrivedNotes + [f])
    case _ => s
  }

  predicate OneSided(e: Event) { (e.Ask? && e.c.Poll?) || e.Arrives? || e.Expires? }

  function KindOf(e: Event): Kind
    requires OneSided(e)
  {
    if e.Ask? then e.c.kind else e.kind
  }

  function More(de: D.Event): seq<RxFrame> { if de.Push? then [de.f] else [] }

  lemma NextOneSided(s: Session, e: Event)
    requires OneSided(e) && Enabled(s, e)
    ensures var k := KindOf(e);
      && SideEvent(e, k).Some? && SideEvent(e, Other(k)) == None
      && D.Enabled(SideOf(s, k), SideEvent(e, k).value)
      && (SideEvent(e, k).value.Push? ==> SideEvent(e, k).value.f.Valid())
      && Next(s, e) == OnSide(Before(s, e), k, SideEvent(e, k).value)
  {
    hide OnSide;
  }

  /** What changes and what does not. */
  lemma OnSideParts(s: Session, e: Event)
    requires OneSided(e) && Enabled(s, e)
    ensures var k := KindOf(e);
      && SideEvent(e, k).Some?
      && var de := SideEvent(e, k).value;
      && var (side', rs) := D.Step(SideOf(s, k), de);
      && var s' := Next(s, e);
      && SideOf(s', k) == side' && SideOf(s', Other(k)) == SideOf(s, Other(k))
      && Arrived(s', k) == Arrived(s, k) + More(de) && Arrived(s', Other(k)) == Arrived(s, Other(k))
      && s'.returned == s.returned
      && s'.unread == (if rs == [] then s.unread else s.unread + ReplyBytes(rs[0]))
      && s'.pending == (var p := if e.Ask? then Waiting(e.c) else s.pending;
                        if rs != [] && WaitsFor(p, k) then Answered(p.c, Polled(rs[0])) else p)
  {
    NextOneSided(s, e);
    hide D.Step, ReplyBytes, Next;
    assert Arrived(s, KindOf(e)) + [] == Arrived(s, KindOf(e));
  }

  lemma OtherSideFine(s: Session, l: Leftover, e: Event, k: Kind)
    requires Fine(s, l) && OneSided(e) && Enabled(s, e) && k == Other(KindOf(e))
    ensures KindFine(Next(s, e), NextLeft(l, e), k)
  {
    NextOneSided(s, e);
    OnSideParts(s, e);
    hide D.Step, ReplyBytes, Next, OnSide, SideFine, GotBy, AsReceived, D.Frames, Enabled, SideEvent;
  }

  lemma OwnSideFine(s: Session, l: Leftover, e: Event)
    requires Fine(s, l) && OneSided(e) && Enabled(s, e) && !IsLate(l, e)
    ensures KindFine(Next(s, e), NextLeft(l, e), KindOf(e))
  {
    var k, s' := KindOf(e), Next(s, e);
    NextOneSided(s, e);
    OnSideParts(s, e);
    var de := SideEvent(e, k).value;
    var rs := D.Step(SideOf(s, k), de).1;
    assert e.Ask? <==> de.Poll?;
    assert de.Push? && LeftOn(l, k) <==> IsLate(l, e);
    hide D.Step, ReplyBytes, Next, OnSide, GotBy, AsReceived, D.Frames, Enabled, SideEvent, SideFine, D.Waiting;
    SideStep(SideOf(s, k), WaitsFor(s.pending, k), LeftOn(l, k), de);
    InAnswerMoves(s.pending, s'.pending, k, rs);
    BalanceMoves(GotBy(s.returned, k), InAnswer(s.pending, k), InAnswer(s'.pending, k), rs, SideOf(s, k).queue,
                 SideOf(s', k).queue, More(de), Arrived(s, k));
  }

  lemma InAnswerMoves(p: Pending, p': Pending, k: Kind, rs: seq<D.Reply>)
    requires |rs| <= 1
    requires if rs != [] then (p.Idle? || WaitsFor(p, k)) && p'.Answered? && p'.c.Poll? && p'.c.kind == k
      && p'.a == Polled(rs[0])
             else p' == p || (p.Idle? && p'.Waiting?)
    ensures if rs == [] then InAnswer(p', k) == InAnswer(p, k)
            else InAnswer(p, k) == [] && InAnswer(p', k) == AsReceived(D.Frames(rs))
  {
    hide AsReceived, D.Frames;
    assert rs != [] ==> rs == [rs[0]];
  }

  lemma SocketFine(s: Session, l: Leftover, e: Event)
    requires Fine(s, l) && OneSided(e) && Enabled(s, e) && !IsLate(l, e)
    ensures var s' := Next(s, e);
      InStep(s') && OwnAnswers(s') && PendingFine(s'.pending)
  {
    var k, s' := KindOf(e), Next(s, e);
    NextOneSided(s, e);
    OnSideParts(s, e);
    var de := SideEvent(e, k).value;
    assert e.Ask? <==> de.Poll?;
    assert de.Push? && LeftOn(l, k) <==> IsLate(l, e);
    hide D.Step, ReplyBytes, Next, OnSide, Balanced, Enabled, SideEvent, SideFine, D.Waiting;
    SideStep(SideOf(s, k), WaitsFor(s.pending, k), LeftOn(l, k), de);
    assert forall b: seq<byte> :: [] + b == b;
  }

  lemma OneSidedStep(s: Session, l: Leftover, e: Event)
    requires Fine(s, l) && OneSided(e) && Enabled(s, e) && !IsLate(l, e)
    ensures Fine(Next(s, e), NextLeft(l, e))
  {
    SocketFine(s, l, e);
    OwnSideFine(s, l, e);
    OtherSideFine(s, l, e, Other(KindOf(e)));
    hide Next, NextLeft, KindFine, InStep, OwnAnswers, PendingFine, Enabled;
  }

  /** A late frame goes to a socket that nobody reads it from: whoever asks next reads it instead of an answer. */
  lemma LateStep(s: Session, l: Leftover, e: Event)
    requires Fine(s, l) && Enabled(s, e) && IsLate(l, e)
    ensures !InStep(Next(s, e)) && !Balanced(Next(s, e), e.kind)
  {
    var k, s' := e.kind, Next(s, e);
    NextOneSided(s, e);
    OnSideParts(s, e);
    SideStep(SideOf(s, k), WaitsFor(s.pending, k), LeftOn(l, k), D.Push(e.f));
    var rs := D.Step(SideOf(s, k), D.Push(e.f)).1;
    assert rs != [] && s'.pending == s.pending;
    assert SideOf(s, k).queue == [] && SideOf(s', k).queue == [];
    hide D.Step, Next, OnSide, GotBy, D.Frames, Enabled, SideFine, AsReceived, InAnswer;
    assert |ReplyBytes(rs[0])| > 0;
    assert |s'.unread| > |s.unread|;
    AsReceivedLength(Arrived(s, k));
    AsReceivedLength(Arrived(s', k));
  }

  lemma {:induction false} AsReceivedLength(fs: seq<RxFrame>)
    ensures |AsReceived(fs)| == |fs|
  {
    if fs != [] {
      AsReceivedLength(fs[1..]);
    }
  }

  lemma StepFine(s: Session, l: Leftover, e: Event)
    requires Fine(s, l) && Enabled(s, e) && !IsLate(l, e)
    ensures Fine(Next(s, e), NextLeft(l, e))
  {
    if OneSided(e) {
      OneSidedStep(s, l, e);
    } else if e.Ask? {
      CommandStep(s, l, e);
    } else {
      ReadStep(s, l);
    }
    hide Next, NextLeft, Fine, Enabled;
  }

  // ----- Whole runs -----

  lemma LateCons(l: Leftover, es: seq<Event>, k: Kind)
    requires es != []
    ensures D.Late(LeftOn(l, k), OfKind(es, k))
       <==> (IsLate(l, es[0]) && es[0].kind == k) || D.Late(LeftOn(NextLeft(l, es[0]), k), OfKind(es[1..], k))
  {
    var de := SideEvent(es[0], k);
    var rest := OfKind(es[1..], k);
    if de.Some? {
      assert ([de.value] + rest)[1..] == rest;
    } else {
      assert [] + rest == rest;
    }
  }

  predicate AnyLate(l: Leftover, es: seq<Event>) {
    D.Late(l.responses, OfKind(es, Responses)) || D.Late(l.notes, OfKind(es, Notes))
  }

  lemma {:induction false} RunFine(s: Session, l: Leftover, es: seq<Event>)
    requires Fine(s, l) && Legal(s, es)
    ensures AlwaysInStep(s, es) <==> !AnyLate(l, es)
    ensures AlwaysBalanced(s, es) <==> !AnyLate(l, es)
    ensures !AnyLate(l, es) ==> OwnAnswers(After(s, es)) && InStep(After(s, es))
    decreases |es|
  {
    if es != [] {
      LateCons(l, es, Responses);
      LateCons(l, es, Notes);
      if IsLate(l, es[0]) {
        LateStep(s, l, es[0]);
      } else {
        StepFine(s, l, es[0]);
        RunFine(Next(s, es[0]), NextLeft(l, es[0]), es[1..]);
      }
      hide Next, NextLeft, Enabled, OfKind, D.Late, Balanced, OwnAnswers, KindFine;
    }
  }

  lemma StartFine()
    ensures Fine(START, Leftover(false, false))
  {
  }

  lemma AnyLateIff(es: seq<Event>)
    ensures AnyLate(Leftover(false, false), es) <==> !NoLateArrival(es)
  {
    D.LateIff(false, OfKind(es, Responses));
    D.LateIff(false, OfKind(es, Notes));
  }

  /** Each libsric call finds exactly its own answer in the socket, at every moment of a run, if and only if on
      neither side a frame comes in after a poll expired and before the application asks to wait again. */
  lemma EachCallReadsItsOwn(es: seq<Event>)
    requires Legal(START, es)
    ensures AlwaysInStep(START, es) <==> NoLateArrival(es)
    ensures NoLateArrival(es) ==> OwnAnswers(After(START, es))
  {
    StartFine();
    AnyLateIff(es);
    hide Fine, Legal, After, AnyLate, NoLateArrival;
    RunFine(START, Leftover(false, false), es);
  }

  /** The frames that the run's polls returned, the one in an answer not read yet and those still queued are those
      that came from the bus, in order, at every moment of a run, under exactly the same condition. */
  lemma PolledAsArrived(es: seq<Event>)
    requires Legal(START, es)
    ensures AlwaysBalanced(START, es) <==> NoLateArrival(es)
  {
    StartFine();
    AnyLateIff(es);
    hide Fine, Legal, After, AnyLate, NoLateArrival;
    RunFine(START, Leftover(false, false), es);
  }

  // ----- Late frames, and what comes of them -----

  lemma FirstEvent(s: Session, e: Event, rest: seq<Event>)
    requires Enabled(s, e) && Legal(Next(s, e), rest)
    ensures Legal(s, [e] + rest) && After(s, [e] + rest) == After(Next(s, e), rest)
  {
    hide Enabled, Next;
    assert ([e] + rest)[1..] == rest;
  }

  function FirstPoll(k: Kind): Call { Poll(k, 50, 1) }

  function WithSide(s: Session, k: Kind, side: D.Side): Session {
    if k == Responses then s.(responses := side) else s.(notes := side)
  }

  /** A first poll that expired and was told so: its ping is left over. */
  function Expired(k: Kind): Session {
    WithSide(START, k, D.Side([], true, {}, 0)).
      (returned := [Return(FirstPoll(k), Some(Polled(D.TimedOut)), PollEnded(Failed(Timeout)))])
  }

  function ExpiredPoll(k: Kind): seq<Event> { [Ask(FirstPoll(k)), Expires(k, 1), Reads] }

  lemma PollAsks(k: Kind)
    ensures var s1 := WithSide(START, k, D.Side([], true, {1}, 1)).(pending := Waiting(FirstPoll(k)));
      Enabled(START, Ask(FirstPoll(k))) && Next(START, Ask(FirstPoll(k))) == s1
  {
    assert D.EMPTY.timers + {1} == {1};
  }

  lemma PollExpires(s1: Session, k: Kind)
    requires s1.unread == [] && SideOf(s1, k) == D.Side([], true, {1}, 1) && s1.pending == Waiting(FirstPoll(k))
    ensures Enabled(s1, Expires(k, 1))
    ensures Next(s1, Expires(k, 1)) == WithSide(s1, k, D.Side([], true, {}, 0)).
      (pending := Answered(FirstPoll(k), Polled(D.TimedOut)), unread := [E_TIMEOUT])
  {
    assert {1} - {1} == {};
    assert [] + [E_TIMEOUT] == [E_TIMEOUT];
  }

  lemma PollReads(s2: Session, k: Kind)
    requires s2.returned == [] && s2.pending == Answered(FirstPoll(k), Polled(D.TimedOut)) && s2.unread == [E_TIMEOUT]
    ensures Enabled(s2, Reads) && Next(s2, Reads) == s2.(pending := Idle, unread := [],
      returned := [Return(FirstPoll(k), Some(Polled(D.TimedOut)), PollEnded(Failed(Timeout)))])
  {
    assert [E_TIMEOUT][1..] == [];
    hide OnSide;
  }

  lemma AfterExpiredPoll(k: Kind, rest: seq<Event>)
    requires Legal(Expired(k), rest)
    ensures Legal(START, ExpiredPoll(k) + rest) && After(START, ExpiredPoll(k) + rest) == After(Expired(k), rest)
  {
    PollAsks(k);
    var s1 := Next(START, Ask(FirstPoll(k)));
    PollExpires(s1, k);
    var s2 := Next(s1, Expires(k, 1));
    PollReads(s2, k);
    assert Next(s2, Reads) == Expired(k);
    hide Next, Enabled, Legal, After;
    FirstEvent(s2, Reads, rest);
    FirstEvent(s1, Expires(k, 1), [Reads] + rest);
    FirstEvent(START, Ask(FirstPoll(k)), [Expires(k, 1)] + ([Reads] + rest));
    assert [Ask(FirstPoll(k))] + ([Expires(k, 1)] + ([Reads] + rest)) == ExpiredPoll(k) + rest;
  }

  /** Poll, expiry, a frame sent, its response, and a command that the daemon refuses. */
  function RefusalRun(f: RxFrame): seq<Event> {
    ExpiredPoll(Responses)
    + [Ask(Command(E_SUCCESS)), Reads, Arrives(Responses, f), Ask(Command(E_BADADDR)), Reads]
  }

  /** The application takes the first byte of the response for the result of its command, and believes that it
      succeeded. */
  lemma RefusalOverlooked(f: RxFrame)
    requires f.Valid()
    ensures var es := RefusalRun(f);
      && Legal(START, es)
      && var calls := After(START, es).returned;
      && |calls| == 3 && calls[2] == Return(Command(E_BADADDR), Some(Result(E_BADADDR)), CommandEnded(NoError))
  {
    var s3 := Expired(Responses);
    var sent := Return(Command(E_SUCCESS), Some(Result(E_SUCCESS)), CommandEnded(NoError));
    SuccessReads(s3);
    var s4 := Next(s3, Ask(Command(E_SUCCESS)));
    var s5 := Next(s4, Reads);
    assert s5 == s3.(returned := s3.returned + [sent]);
    RefusalAfter(s5, f);
    var rest := [Arrives(Responses, f), Ask(Command(E_BADADDR)), Reads];
    hide Next, Enabled, Legal, After, ExpiredPoll, Expired;
    FirstEvent(s4, Reads, rest);
    FirstEvent(s3, Ask(Command(E_SUCCESS)), [Reads] + rest);
    var more := [Ask(Command(E_SUCCESS))] + ([Reads] + rest);
    AfterExpiredPoll(Responses, more);
    assert more == [Ask(Command(E_SUCCESS)), Reads, Arrives(Responses, f), Ask(Command(E_BADADDR)), Reads];
  }

  lemma SuccessReads(s: Session)
    requires s.pending == Idle && s.unread == []
    ensures Enabled(s, Ask(Command(E_SUCCESS)))
    ensures var s1 := Next(s, Ask(Command(E_SUCCESS)));
      Enabled(s1, Reads) && Next(s1, Reads) ==
      s.(returned := s.returned + [Return(Command(E_SUCCESS), Some(Result(E_SUCCESS)), CommandEnded(NoError))])
  {
    assert [] + [E_SUCCESS] == [E_SUCCESS] && [E_SUCCESS][1..] == [];
    hide OnSide;
  }

  lemma RefusalAfter(s: Session, f: RxFrame)
    requires f.Valid() && s.responses == D.Side([], true, {}, 0) && s.pending == Idle && s.unread == []
      && |s.returned| == 2
    ensures var es := [Arrives(Responses, f), Ask(Command(E_BADADDR)), Reads];
      && Legal(s, es)
      && var calls := After(s, es).returned;
      && |calls| == 3 && calls[2] == Return(Command(E_BADADDR), Some(Result(E_BADADDR)), CommandEnded(NoError))
  {
    var command := Command(E_BADADDR);
    var s1 := Next(s, Arrives(Responses, f));
    assert s.responses.queue + [f] == [f];
    assert s1.pending == Idle && s1.unread == ReplyBytes(D.Delivered(f)) && s1.returned == s.returned;
    OverlookedHere(s1);
    hide Next, Enabled, Legal, After;
    FirstEvent(s, Arrives(Responses, f), [Ask(command), Reads]);
    assert [Arrives(Responses, f)] + [Ask(command), Reads] == [Arrives(Responses, f), Ask(command), Reads];
  }

  lemma OverlookedHere(s: Session)
    requires s.pending == Idle && s.unread != [] && s.unread[0] == E_SUCCESS && |s.returned| == 2
    ensures var es := [Ask(Command(E_BADADDR)), Reads];
      && Legal(s, es)
      && var calls := After(s, es).returned;
      && |calls| == 3 && calls[2] == Return(Command(E_BADADDR), Some(Result(E_BADADDR)), CommandEnded(NoError))
  {
    var command := Command(E_BADADDR);
    var s1 := Next(s, Ask(command));
    assert s1.unread[0] == E_SUCCESS;
    var s2 := Next(s1, Reads);
    assert s2.returned[2] == Return(command, Some(Result(E_BADADDR)), CommandEnded(NoError));
    assert Enabled(s1, Reads);
    hide Next, Enabled;
    FirstEvent(s1, Reads, []);
    assert [Reads] + [] == [Reads];
    FirstEvent(s, Ask(command), [Reads]);
    assert [Ask(command)] + [Reads] == [Ask(command), Reads];
  }

  // ----- A client that goes away -----

  /** A waiting poll has a timer unless it waits for ever. */
  predicate Timed(s: Session) {
    s.pending.Waiting? && s.pending.c.Poll? ==>
      (SideOf(s, s.pending.c.kind).timer == 0 <==> s.pending.c.timeout == -1)
  }

  lemma TimerOfPoll(side: D.Side, de: D.Event)
    requires D.OneTimer(false, side) && de.Poll? && D.Enabled(side, de) && D.Step(side, de).1 == []
    ensures D.Step(side, de).0.timer == 0 <==> de.timeout == -1
  {}

  lemma TimedAsk(s: Session, l: Leftover, e: Event)
    requires Fine(s, l) && Enabled(s, e) && e.Ask? && e.c.Poll?
    ensures Timed(Next(s, e))
  {
    OnSideParts(s, e);
    var k, de := KindOf(e), SideEvent(e, KindOf(e)).value;
    if D.Step(SideOf(s, k), de).1 == [] {
      TimerOfPoll(SideOf(s, k), de);
    }
    hide Next, D.Step, Balanced, ReplyBytes, OwnAnswers, InStep, QueueValid, D.OneTimer, D.Inv;
  }

  /** A call that still waits after something else happened waits on an untouched side. */
  lemma TimedWait(s: Session, l: Leftover, e: Event)
    requires Fine(s, l) && Timed(s) && Enabled(s, e) && !IsLate(l, e) && (e.Arrives? || e.Expires?)
    ensures Timed(Next(s, e))
  {
    OnSideParts(s, e);
    NextOneSided(s, e);
    var k, de := KindOf(e), SideEvent(e, KindOf(e)).value;
    SideStep(SideOf(s, k), WaitsFor(s.pending, k), LeftOn(l, k), de);
    hide Next, D.Step, Balanced, ReplyBytes, OwnAnswers, InStep, SideFine, OnSide;
    assert WaitsFor(s.pending, k) ==> D.Step(SideOf(s, k), de).1 != [];
  }

  lemma TimedStep(s: Session, l: Leftover, e: Event)
    requires Fine(s, l) && Timed(s) && Enabled(s, e) && !IsLate(l, e)
    ensures Timed(Next(s, e))
  {
    if e.Arrives? || e.Expires? {
      TimedWait(s, l, e);
    } else if OneSided(e) {
      TimedAsk(s, l, e);
    } else {
      hide ListBytes, Fine, Take;
    }
  }

  lemma {:induction false} TimedRun(s: Session, l: Leftover, es: seq<Event>)
    requires Fine(s, l) && Timed(s) && Legal(s, es) && !AnyLate(l, es)
    ensures Timed(After(s, es)) && exists l' :: Fine(After(s, es), l')
    decreases |es|
  {
    if es != [] {
      LateCons(l, es, Responses);
      LateCons(l, es, Notes);
      TimedStep(s, l, es[0]);
      StepFine(s, l, es[0]);
      hide Next, NextLeft, Enabled, OfKind, D.Late, Fine, Timed;
      TimedRun(Next(s, es[0]), NextLeft(l, es[0]), es[1..]);
    }
  }

  predicate TimerLives(s: Session) { s.responses.timers != {} || s.notes.timers != {} }

  lemma SideFollows(s: Session, e: Event, k: Kind)
    requires Enabled(s, e)
    ensures match SideEvent(e, k)
      case None => SideOf(Next(s, e), k) == SideOf(s, k)
      case Some(de) => D.Enabled(SideOf(s, k), de) && SideOf(Next(s, e), k) == D.Step(SideOf(s, k), de).0
  {
    if OneSided(e) {
      OnSideParts(s, e);
      NextOneSided(s, e);
      hide Next, D.Step, D.Enabled, OnSide, Enabled;
    } else {
      hide Take, ListBytes, D.Step;
    }
  }

  lemma {:induction false} SideRuns(s: Session, es: seq<Event>, k: Kind)
    requires Legal(s, es)
    ensures D.Legal(SideOf(s, k), OfKind(es, k)) && SideOf(After(s, es), k) == D.After(SideOf(s, k), OfKind(es, k))
    decreases |es|
  {
    if es != [] {
      var de, rest := SideEvent(es[0], k), OfKind(es[1..], k);
      SideFollows(s, es[0], k);
      SideRuns(Next(s, es[0]), es[1..], k);
      hide Next, Enabled, SideOf, D.Step, D.Enabled, SideEvent;
      if de.Some? {
        assert ([de.value] + rest)[1..] == rest;
      } else {
        assert [] + rest == rest;
      }
    }
  }

  /** client_destroy leaves the poll timers alone: when the application goes away, the callback of one is still to
      come, for a client that is no more, exactly if a poll that had to wait armed one which has not expired, and no
      frame answered that poll, on either side. */
  lemma TimerOutlivesClientIff(es: seq<Event>)
    requires Legal(START, es)
    ensures TimerLives(After(START, es)) <==> D.LeavesSome(OfKind(es, Responses)) || D.LeavesSome(OfKind(es, Notes))
  {
    SideRuns(START, es, Responses);
    SideRuns(START, es, Notes);
    SomeTimer(OfKind(es, Responses));
    SomeTimer(OfKind(es, Notes));
    hide D.LeavesSome, OfKind, Legal, After, D.Legal, D.After;
  }

  lemma SomeTimer(ds: seq<D.Event>)
    requires D.Legal(D.EMPTY, ds)
    ensures D.After(D.EMPTY, ds).timers != {} <==> D.LeavesSome(ds)
  {
    hide D.LeavesTimer, D.Legal, D.After, D.TimerOf;
    var timers := D.After(D.EMPTY, ds).timers;
    if timers != {} {
      var id :| id in timers;
      D.TimerLeftIff(ds, id);
    }
    forall i: nat | i < |ds| && D.LeavesTimer(ds, i) ensures timers != {} {
      D.TimerLeftIff(ds, D.TimerOf(ds[i]));
    }
  }

  /** While no frame is late, that is while the application waits on a poll that does not wait for ever. */
  lemma TimerLivesOnTime(es: seq<Event>)
    requires Legal(START, es) && NoLateArrival(es)
    ensures var s := After(START, es);
      TimerLives(s) <==> s.pending.Waiting? && s.pending.c.Poll? && s.pending.c.timeout != -1
  {
    StartFine();
    AnyLateIff(es);
    TimedRun(START, Leftover(false, false), es);
    var s := After(START, es);
    var l :| Fine(s, l);
    hide Legal, After, AnyLate, NoLateArrival, Balanced, OwnAnswers, InStep, QueueValid, D.Inv;
  }

  /** A late note is read by the next poll for notes, whose own timer is then left although the application waits for
      nothing. */
  lemma TimerOutlivesReturn(f: RxFrame)
    requires f.Valid()
    ensures var es := ExpiredPoll(Notes) + [Arrives(Notes, f), Ask(Poll(Notes, 50, 2)), Reads];
      && Legal(START, es)
      && var s := After(START, es);
      && s.pending == Idle && s.notes.timers == {2}
      && |s.returned| == 2 && s.returned[1].own == None && s.returned[1].o == PollEnded(Ipc.Outcome(D.Delivered(f)))
  {
    var again := Poll(Notes, 50, 2);
    var s3 := Expired(Notes);
    LateNote(s3, f);
    var s4 := Next(s3, Arrives(Notes, f));
    assert {} + {2} == {2};
    var s5 := Next(s4, Ask(again));
    assert s5 == s4.(notes := D.Side([], true, {2}, 2), pending := Waiting(again));
    assert Enabled(s3, Arrives(Notes, f)) && Enabled(s4, Ask(again));
    assert |s3.returned| == 1;
    hide Next, Enabled, ExpiredPoll, Expired, ReplyBytes;
    ReadsOther(s5, again, f);
    var s6 := Next(s5, Reads);
    assert Legal(s6, []) && After(s6, []) == s6;
    FirstEvent(s5, Reads, []);
    FirstEvent(s4, Ask(again), [Reads] + []);
    FirstEvent(s3, Arrives(Notes, f), [Ask(again)] + ([Reads] + []));
    var more := [Arrives(Notes, f)] + ([Ask(again)] + ([Reads] + []));
    AfterExpiredPoll(Notes, more);
    assert more == [Arrives(Notes, f), Ask(again), Reads];
  }

  /** A waiting poll reads a frame that is not its answer. */
  lemma ReadsOther(s: Session, c: Call, f: RxFrame)
    requires c.Poll? && s.pending == Waiting(c) && s.unread == ReplyBytes(D.Delivered(f)) && f.Valid()
    ensures Enabled(s, Reads) && Next(s, Reads) == s.(pending := Idle, unread := [],
      returned := s.returned + [Return(c, None, PollEnded(Ipc.Outcome(D.Delivered(f))))])
  {
    TakeReply(D.Delivered(f));
    hide PollAnswer, ReplyBytes, OnSide;
  }

  lemma LateNote(s: Session, f: RxFrame)
    requires f.Valid()
    requires s.notes == D.Side([], true, {}, 0) && s.pending == Idle && s.unread == []
    ensures Next(s, Arrives(Notes, f)) ==
      s.(notes := D.EMPTY, unread := ReplyBytes(D.Delivered(f)), arrivedNotes := s.arrivedNotes + [f])
  {
    assert s.notes.queue + [f] == [f] && [f][1..] == [];
    assert [] + ReplyBytes(D.Delivered(f)) == ReplyBytes(D.Delivered(f));
    hide ReplyBytes;
  }
}
