/** The daemon as a whole: transmitter, enumeration code, device table and clients, and what each callback does to
    them (sricd/sric-if.c, sricd/ipc.c, sricd/client.c). */
module Sricd {
  import opened Bytes
  import opened Frame
  import opened Encoding
  import opened OutputQueue
  import opened TxModel
  import opened Transmitter
  import opened TxRuns
  import opened ClientSafety
  import E = EnumFsm
  import opened EnumMachine
  import opened EnumLink
  import opened Clients
  import opened Daemon
  import opened DeviceList
  import opened Ipc
  import opened NoteRegistry
  import opened NoteTargets
  import opened NoteNames
  import opened FlagWord
  import opened FrameHandler
  import Libsric

  predicate AllDifferent(m: map<nat, Client>) {
    forall i, j :: i in m && j in m && i != j ==> m[i] != m[j]
  }

  lemma FewerDifferent(m: map<nat, Client>, k: nat)
    requires AllDifferent(m)
    ensures AllDifferent(m - {k}) && (m - {k}).Keys == m.Keys - {k}
  {}

  lemma MoreDifferent(m: map<nat, Client>, k: nat, c: Client)
    requires AllDifferent(m) && c !in m.Values && k !in m
    ensures AllDifferent(m[k := c]) && m[k := c].Keys == m.Keys + {k}
  {
    forall i | i in m ensures m[i] != c {
      assert m[i] in m.Values;
    }
  }

  // ----- What each callback is in the runs of TxRuns -----

  predicate Follows(w: World, h: Happening, w': World) {
    && Sound(w.tx) && Possible(w, h) && w' == NextWorld(w, h)
  }

  lemma HistoryStep(w: World, h: Happening)
    requires Inv(w) && Possible(w, h)
    ensures Inv(NextWorld(w, h)) && (TagsFine(w) && Orderly(w, h) ==> TagsFine(NextWorld(w, h)))
  {
    InvStep(w, h);
    if TagsFine(w) && Orderly(w, h) {
      TagsStep(w, h);
    }
    hide NextWorld, Possible, TagsFine, Orderly, Conserved, Distinct, FirstComeFirstSent;
  }

  lemma SentNext(w: World, k: nat, f: TxFrame)
    requires Inv(w) && k in w.live && f.tag == ClientTag(k) && f.id == w.nextId && f.Valid()
    ensures Sound(w.tx) && Possible(w, Sent(k, f))
    ensures var w' := NextWorld(w, Sent(k, f));
      w'.tx == OnPush(w.tx, f, 1) && w'.live == w.live && w'.known == w.known && w'.nextId == w.nextId + 1
      && w'.log.out == w.log.out
  {
    hide Conserved, Distinct, FirstComeFirstSent, Sound;
  }

  lemma RespondedNext(w: World, f: TxFrame)
    requires Inv(w) && f.tag == NoTag && f.id == w.nextId && f.Valid()
    ensures Sound(w.tx) && Possible(w, Responded(f))
    ensures var w' := NextWorld(w, Responded(f));
      w'.tx == OnPush(w.tx, f, 0) && w'.live == w.live && w'.known == w.known && w'.nextId == w.nextId + 1
      && w'.log.out == w.log.out
  {
    hide Conserved, Distinct, FirstComeFirstSent, Sound;
  }

  lemma EnumeratedNext(w: World, f: TxFrame)
    requires Inv(w) && !w.tx.enumerated && FromEnumeration(f) && f.id == w.nextId && f.Valid()
    ensures Sound(w.tx) && Possible(w, Enumerated(f))
    ensures var w' := NextWorld(w, Enumerated(f));
      w'.tx == OnPush(w.tx, f, 0) && w'.live == w.live && w'.known == w.known && w'.nextId == w.nextId + 1
      && w'.log.out == w.log.out
  {
    hide Conserved, Distinct, FirstComeFirstSent, Sound;
  }

  lemma WroteNext(w: World, count: nat)
    requires Inv(w) && w.tx.watch
    ensures Sound(w.tx) && Possible(w, Wrote(count))
    ensures var w' := NextWorld(w, Wrote(count));
      w'.tx == OnWritable(w.tx, count) && w'.live == w.live && w'.known == w.known && w'.nextId == w.nextId
      && w'.log.out == w.log.out + GoneOnWritable(w.tx, count)
  {
    hide Conserved, Distinct, FirstComeFirstSent, OneTimer, Watched, WireIsFrame, AllFramesValid, OnWritable,
      GoneOnWritable;
  }

  lemma TimedOutNext(w: World, id: nat)
    requires Inv(w) && id in w.tx.timers
    ensures Sound(w.tx) && Possible(w, TimedOut(id))
    ensures var w' := NextWorld(w, TimedOut(id));
      w'.tx == OnExpire(w.tx, id) && w'.live == w.live && w'.known == w.known && w'.nextId == w.nextId
      && w'.log.out == w.log.out
  {
    hide Conserved, Distinct, FirstComeFirstSent, Sound, OnExpire;
  }

  lemma AckedNext(w: World, e: E.Enum, r: E.Reply)
    requires Inv(w) && E.WellFormed(e)
    ensures var h := AckOf(w.tx, e, r, w.nextId);
      && h.Acked? && AllFramesValid(h.pushes) && Sound(w.tx) && Possible(w, h)
      && var w' := NextWorld(w, h);
      w'.tx == OnAck(w.tx, h.pushes, h.done) && w'.live == w.live && w'.known == w.known
      && w'.nextId == w.nextId + |h.pushes|
      && w'.log.out == w.log.out
  {
    SentValid(e, r);
    FramesPossible(E.OnReply(e, r).sent, w.nextId);
    hide Conserved, Distinct, FirstComeFirstSent, Sound, OnAck, E.OnReply, FramesFor;
  }

  lemma ConnectedNext(w: World, k: nat)
    requires Inv(w) && w.tx.enumerated && k !in w.known
    ensures Sound(w.tx) && Possible(w, Connected(k))
    ensures var w' := NextWorld(w, Connected(k));
      w'.tx == w.tx && w'.live == w.live + {k} && w'.known == w.known + {k} && w'.nextId == w.nextId
      && w'.log.out == w.log.out
  {
    hide Conserved, Distinct, FirstComeFirstSent, Sound;
  }

  lemma PollTimedOutNext(w: World, k: nat)
    requires Inv(w) && k in w.live
    ensures Sound(w.tx) && Possible(w, PollTimedOut(k))
    ensures var w' := NextWorld(w, PollTimedOut(k));
      w'.tx == OnCancel(w.tx, ClientTag(k)) && w'.live == w.live && w'.known == w.known && w'.nextId == w.nextId
      && w'.log.out == w.log.out
  {
    hide Conserved, Distinct, FirstComeFirstSent, Sound, OnCancel;
  }

  lemma DiedNext(w: World, k: nat)
    requires Inv(w) && k in w.live
    ensures Sound(w.tx) && Possible(w, Died(k))
    ensures var w' := NextWorld(w, Died(k));
      w'.tx == OnCancel(w.tx, ClientTag(k)) && w'.live == w.live - {k} && w'.known == w.known && w'.nextId == w.nextId
      && w'.log.out == w.log.out
  {
    hide Conserved, Distinct, FirstComeFirstSent, Sound, OnCancel;
  }

  // ----- What a request does -----

  /** handle_tx: errors are answered and leave the history as it was; otherwise the client's frame is queued. */
  ghost predicate TxServed(k: nat, input: seq<byte>, left: seq<byte>, said: seq<byte>, written: seq<byte>, w: World,
                           w': World, id: nat, types: seq<int>) {
    match TxRead(input)
    case None => w' == w && written == said + [E_BADREQUEST]
    case Some((address, payload, rest)) =>
      && left == rest && 0 <= address < |types|
      && if types[address] == NO_DEVICE then w' == w && written == said + [E_BADADDR]
         else
           && Follows(w, Sent(k, TxFrame(id, FRAME_SRIC, address, ClientTag(k), payload)), w')
           && written == said + [E_SUCCESS]
  }

  // ----- The daemon -----

  /** How a callback leaves the daemon: running, given up because the bus has too many devices, or with a response
      for something that is no client, which the source asserts never to happen or follows as a pointer. */
  datatype Fate = GoesOn | GivesUp | NobodyToAnswer

  function FateOf(t: Tx, live: set<nat>, e: E.Enum): Fate {
    match Delivered(t)
    case Some(tag) => if tag.ClientTag? && tag.client in live then GoesOn else NobodyToAnswer
    case None => if e.state == E.Exited then GivesUp else GoesOn
  }

  function TypesAfter(types: seq<int>, e: E.Enum, e': E.Enum): seq<int>
    requires |types| == HIGH_ADDRESS && E.WellFormed(e')
  {
    if e.state != E.Done && e'.state == E.Done then WithClasses(types, e'.classes, e'.next) else types
  }

  /** For an orderly ack there is somebody to answer, and only for such. */
  lemma AnsweredIffOrderly(w: World, h: Happening, e: E.Enum)
    requires Inv(w) && TagsFine(w) && h.Acked? && Delivered(w.tx).Some?
    ensures FateOf(w.tx, w.live, e) == GoesOn <==> Orderly(w, h)
  {
    hide Inv, QueueFine;
  }

  /** An ack makes the daemon give up exactly if it tells the enumeration code of one more participant when all the
      addresses are given out. */
  lemma GivesUpIff(t: Tx, live: set<nat>, e: E.Enum, r: E.Reply)
    requires E.WellFormed(e) && e.state != E.Exited
    ensures FateOf(t, live, EnumAfter(t, e, r)) == GivesUp <==>
      Consults(t) && e.state == E.Enumerating && r.IsAck() && |r.payload| == 1 && e.next == E.DEVICE_HIGH_ADDRESS
  {
    ExitedIff(e, r);
    hide E.OnReply;
  }

  lemma FateIs(w: World, h: Happening, e: E.Enum)
    requires Inv(w) && h.Acked?
    ensures TagsFine(w) && Delivered(w.tx).Some? ==> (FateOf(w.tx, w.live, e) == GoesOn <==> Orderly(w, h))
  {
    if TagsFine(w) && Delivered(w.tx).Some? {
      AnsweredIffOrderly(w, h, e);
    }
  }

  /** Registering the classes at the end keeps the device table what the enumeration code thinks it is. */
  lemma TableFollows(types: seq<int>, e: E.Enum, r: E.Reply)
    requires E.WellFormed(e) && TableAgrees(types, e.added)
    ensures E.WellFormed(E.OnReply(e, r).e)
    ensures TableAgrees(TypesAfter(types, e, E.OnReply(e, r).e), E.OnReply(e, r).e.added)
  {
    E.OnReplyWellFormed(e, r);
    AddedIs(e, r);
    hide E.OnReply, WithClasses;
  }

  lemma TableAfter(types: seq<int>, t: Tx, e: E.Enum, r: E.Reply)
    requires E.WellFormed(e) && TableAgrees(types, e.added)
    ensures var e' := EnumAfter(t, e, r);
      E.WellFormed(e') && TableAgrees(TypesAfter(types, e, e'), e'.added)
  {
    hide E.OnReply, E.WellFormed, TableAgrees;
    if Consults(t) {
      TableFollows(types, e, r);
    }
  }

  lemma AddedIs(e: E.Enum, r: E.Reply)
    requires E.WellFormed(e)
    ensures var e' := E.OnReply(e, r).e;
      if e.state != E.Done && e'.state == E.Done
      then e'.next <= |e'.classes| == HIGH_ADDRESS && e'.added == e.added + E.AddedUpTo(e'.classes, e'.next)
      else e'.added == e.added
  {
    hide E.AddedUpTo;
  }

  lemma TimersAddNothing(e: E.Enum)
    requires E.WellFormed(e)
    ensures E.Fsm(e, E.StartEnum).e.added == e.added || e.state == E.FetchingClasses
    ensures E.OnKillTimeout(e).e.added == e.added && E.OnResetTimeout(e).e.added == e.added
  {
    hide E.AddedUpTo;
  }

  lemma TimersSendValid(e: E.Enum)
    requires E.WellFormed(e)
    ensures forall m :: m in E.Fsm(e, E.StartEnum).sent ==> m.Valid()
    ensures forall m :: m in E.OnKillTimeout(e).sent ==> m.Valid()
    ensures forall m :: m in E.OnResetTimeout(e).sent ==> m.Valid()
  {
    hide E.AddedUpTo;
  }

  lemma TableSize(t: DeviceTable)
    requires t.Valid()
    ensures t.targets.Length == ADDRESSES
  {}

  lemma OneMoreFrame(ms: seq<Message>, i: nat, id: nat, high: seq<TxFrame>)
    requires i < |ms|
    ensures high + FramesFor(ms[..i + 1], id) == high + FramesFor(ms[..i], id) + [FrameFor(ms[i], id + i)]
  {
    assert ms[..i + 1][..i] == ms[..i];
  }

  lemma EnumeratorFine(m: Enumerator)
    requires m.Valid()
    ensures E.WellFormed(m.Abs())
  {}

  /** The note in f, if it is one, was offered to every client in the list. */
  twostate predicate NoteOffered(ts: seq<Entry>, f: seq<byte>, shift: bv64)
    requires WholeFrame(f)
    reads set t | t in ts :: t.who
  {
    forall t :: t in ts ==>
      t.who.Snapshot() == match NoteIn(f)
        case None => old(t.who.Snapshot())
        case Some(note) =>
          Offered(old(t.who.Snapshot()), t.who in Dispatched(ts, Shifted(note.note, shift)), note)
  }

  /** The client with this tag was pushed the response, and no other client was touched. */
  twostate predicate ResponseGiven(clients: map<nat, Client>, tag: Option<Tag>, rx: RxFrame)
    reads clients.Values
  {
    forall k :: k in clients ==>
      clients[k].Snapshot() == if tag == Some(ClientTag(k)) then Answered(old(clients[k].Snapshot()), rx)
                               else old(clients[k].Snapshot())
  }

  /** Every client gets the note in f, if it is one, exactly if its flags for the sender have the note's bit: those that
      it asked for last. */
  twostate predicate NoteReaches(clients: map<nat, Client>, requests: seq<Request>, f: seq<byte>)
    requires WholeFrame(f)
    reads clients.Values
  {
    match NoteIn(f)
    case None => forall k :: k in clients ==> clients[k].Snapshot() == old(clients[k].Snapshot())
    case Some(note) =>
      note.note < 64 ==>
        forall k :: k in clients ==>
          clients[k].Snapshot()
          == Offered(old(clients[k].Snapshot()), Has(LastAsked(requests, k, note.source), Bit(note.note)), note)
  }

  /** What a client asks of the registry with a command and the bytes behind it. */
  function RequestsIn(k: nat, command: byte, input: seq<byte>, junk: bv64, types: seq<int>): seq<Request> {
    if command == SRICD_NOTE_CLEAR then [Clear(k)]
    else if command != SRICD_NOTE_FLAGS || |input| < 2 then []
    else
      var address := OfBe16(input[0], input[1]);
      var flags := if |input| < 10 then Load(Reversed8(Memory(junk))) else FlagsRead(input[2..10]);
      if address >= |types| || types[address] == NO_DEVICE then [] else [SetFlags(k, address, flags)]
  }

  lemma OfferedNot(s: State, note: RxFrame)
    ensures Offered(s, false, note) == s
  {}

  /** The lists of targets are those of the registry after all the requests. */
  ghost predicate RegistryFine(targets: seq<seq<Entry>>, names: map<Client, nat>, requests: seq<Request>, wild: bv64,
                               clients: map<nat, Client>, known: set<nat>) {
    && Injective(names) && Shows(targets, names, requests, wild)
    && (forall k :: k in clients ==> clients[k] in names && names[clients[k]] == k)
    && forall c :: c in names ==> names[c] in known
  }

  lemma FirstRegistry(targets: seq<seq<Entry>>, wild: bv64)
    requires |targets| == ADDRESSES && forall a :: 0 <= a < ADDRESSES ==> targets[a] == []
    ensures RegistryFine(targets, map[], [], wild, map[], {})
  {
    ShowsNobody(targets, wild);
    hide Shows;
  }

  lemma RegistryJoined(targets: seq<seq<Entry>>, names: map<Client, nat>, requests: seq<Request>, wild: bv64,
                       clients: map<nat, Client>, known: set<nat>, k: nat, c: Client)
    requires RegistryFine(targets, names, requests, wild, clients, known) && k !in known && k !in clients && c !in names
    ensures RegistryFine(targets, names[c := k], requests, wild, clients[k := c], known + {k})
  {
    ShowsMore(targets, names, requests, wild, c, k);
    hide Shows, Injective;
  }

  lemma RegistryCleared(targets: seq<seq<Entry>>, names: map<Client, nat>, requests: seq<Request>, wild: bv64,
                        clients: map<nat, Client>, known: set<nat>, k: nat)
    requires RegistryFine(targets, names, requests, wild, clients, known) && k in clients
    ensures RegistryFine(AllDropped(targets, clients[k]), names, requests + [Clear(k)], wild, clients, known)
    ensures RegistryFine(AllDropped(targets, clients[k]), names, requests + [Clear(k)], wild, clients - {k}, known)
  {
    ShowsClear(targets, names, requests, wild, clients[k]);
    hide Shows, Injective, AllDropped;
  }

  lemma RegistryAsked(c: Client, input: seq<byte>, said: seq<byte>, written: seq<byte>, junk: bv64,
                      targets: seq<seq<Entry>>, targets': seq<seq<Entry>>, mask: Mask, mask': Mask, types: seq<int>,
                      wild: bv64, names: map<Client, nat>, requests: seq<Request>, clients: map<nat, Client>,
                      known: set<nat>, k: nat)
    requires |targets| == |types| == ADDRESSES && k in clients && clients[k] == c
    requires FlagsServed(c, input, said, written, junk, targets, targets', mask, mask', types, wild)
    requires RegistryFine(targets, names, requests, wild, clients, known)
    ensures RegistryFine(targets', names, requests + RequestsIn(k, SRICD_NOTE_FLAGS, input, junk, types), wild, clients,
                         known)
  {
    FlagsShown(c, input, said, written, junk, targets, targets', mask, mask', types, wild, names, requests);
    hide Shows, Injective, FlagsServed, RequestsIn;
  }

  lemma RegistryReaches(targets: seq<seq<Entry>>, names: map<Client, nat>, requests: seq<Request>, wild: bv64,
                        clients: map<nat, Client>, known: set<nat>, k: nat, note: RxFrame, before: State,
                        after: State)
    requires RegistryFine(targets, names, requests, wild, clients, known) && k in clients
    requires |targets| == ADDRESSES && note.source < ADDRESSES && note.note < 64
    requires after == if Listed(targets[note.source], clients[k])
                      then Offered(before, clients[k] in Dispatched(targets[note.source], Bit(note.note)), note)
                      else before
    ensures after == Offered(before, Has(LastAsked(requests, k, note.source), Bit(note.note)), note)
  {
    OfferedReaches(targets, names, requests, wild, clients[k], note, before, after);
    hide Shows, Injective, Offered, Listed, Dispatched, LastAsked, Has, Bit;
  }

  /** A note offered to a list of targets reaches a client, listed or not, exactly if it asked for it last. */
  lemma OfferedReaches(targets: seq<seq<Entry>>, names: map<Client, nat>, requests: seq<Request>, wild: bv64, c: Client,
                       note: RxFrame, before: State, after: State)
    requires Shows(targets, names, requests, wild) && Injective(names) && c in names
    requires note.source < ADDRESSES && note.note < 64
    requires after == if Listed(targets[note.source], c)
                      then Offered(before, c in Dispatched(targets[note.source], Bit(note.note)), note) else before
    ensures after == Offered(before, Has(LastAsked(requests, names[c], note.source), Bit(note.note)), note)
  {
    assert |targets| == ADDRESSES;
    hide Shows, Injective, Offered, Dispatched, LastAsked, Has, Bit, Listed;
    DispatchIsLastAsked(targets, names, requests, wild, c, note.source, note.note);
    if c in Dispatched(targets[note.source], Bit(note.note)) {
      DispatchedListed(targets[note.source], Bit(note.note), c);
    }
    OfferedNot(before, note);
  }

  lemma ClearsOrNothing(k: nat, command: byte, input: seq<byte>, junk: bv64, types: seq<int>)
    requires command != SRICD_NOTE_FLAGS
    ensures RequestsIn(k, command, input, junk, types) == if command == SRICD_NOTE_CLEAR then [Clear(k)] else []
  {}

  lemma FlagsShown(c: Client, input: seq<byte>, said: seq<byte>, written: seq<byte>, junk: bv64,
                   targets: seq<seq<Entry>>, targets': seq<seq<Entry>>, mask: Mask, mask': Mask, types: seq<int>,
                   wild: bv64, names: map<Client, nat>, requests: seq<Request>)
    requires |targets| == |types| == ADDRESSES
    requires FlagsServed(c, input, said, written, junk, targets, targets', mask, mask', types, wild)
    requires Shows(targets, names, requests, wild) && Injective(names) && c in names
    ensures Shows(targets', names, requests + RequestsIn(names[c], SRICD_NOTE_FLAGS, input, junk, types), wild)
  {
    hide Shows, Injective, SetNotes, NewMask, OfBe16, FlagsRead, Load;
    assert requests + [] == requests;
    if |input| >= 2 {
      var address := OfBe16(input[0], input[1]);
      var flags := if |input| < 10 then Load(Reversed8(Memory(junk))) else FlagsRead(input[2..10]);
      ShowsSet(targets, names, requests, wild, c, address, flags);
    }
  }

  /** A client is known by the number that stands for its address, `nextId` is the address that the next queue entry
      gets. `world` is the history; the clients that live in it are those connected. `names` has the numbers of all
      clients so far, `requests` all that was asked of the registry. */
  class Sricd {
    const tx: SerialTransmitter
    const table: DeviceTable
    const enumerator: Enumerator
    var clients: map<nat, Client>
    var nextId: nat
    ghost var world: World
    ghost var names: map<Client, nat>
    ghost var requests: seq<Request>

    ghost predicate Apart()
      reads this
    {
      && tx.txbuf != enumerator.classes
      && table.types as object != tx.txbuf as object && table.types as object != enumerator.classes as object
      && table.targets as object != tx.txbuf as object && table.targets as object != tx.crcTable as object
      && table.targets as object != enumerator.classes as object
    }

    ghost predicate Parts()
      reads this, tx, tx.txq, tx.txbuf, tx.crcTable, table, table.targets, table.types, enumerator, enumerator.classes
    {
      tx.Valid() && table.Valid() && enumerator.Valid() && Apart()
    }

    ghost predicate Registered()
      reads this, table.targets
    {
      RegistryFine(table.targets[..], names, requests, table.wild, clients, world.known)
    }

    ghost predicate Valid()
      reads this, tx, tx.txq, tx.txbuf, tx.crcTable, table, table.targets, table.types, enumerator, enumerator.classes
    {
      && Registered() && Parts() && AllDifferent(clients) && Inv(world)
      && world.tx == tx.Abs() && world.live == clients.Keys && world.nextId == nextId && world.log.out == tx.port
      && TableAgrees(table.types[..], enumerator.added)
    }

    /** What the ack f does in the history, and what becomes of the enumeration code and of the table. */
    ghost function Heard(f: seq<byte>): Happening
      requires Parts() && WholeFrame(f)
      reads this, tx, tx.txq, tx.txbuf, tx.crcTable, table, table.targets, table.types, enumerator, enumerator.classes
    {
      AckOf(tx.Abs(), enumerator.Abs(), ReplyOf(f), nextId)
    }

    ghost function EnumAfterAck(f: seq<byte>): (e: E.Enum)
      requires Parts() && WholeFrame(f)
      reads this, tx, tx.txq, tx.txbuf, tx.crcTable, table, table.targets, table.types, enumerator, enumerator.classes
      ensures E.WellFormed(e)
    {
      E.OnReplyWellFormed(enumerator.Abs(), ReplyOf(f));
      EnumAfter(tx.Abs(), enumerator.Abs(), ReplyOf(f))
    }

    ghost function TypesAfterAck(f: seq<byte>): seq<int>
      requires Parts() && WholeFrame(f)
      reads this, tx, tx.txq, tx.txbuf, tx.crcTable, table, table.targets, table.types, enumerator, enumerator.classes
    {
      TypesAfter(table.types[..], enumerator.Abs(), EnumAfterAck(f))
    }

    constructor (wild: bv64)
      ensures Valid() && world == GENESIS && TagsFine(world) && clients == map[] && tx.port == []
        && requests == []
      ensures enumerator.Abs() == E.POWER_ON && OnlyMaster(table.types[..])
    {
      tx := new SerialTransmitter();
      table := new DeviceTable(wild);
      enumerator := new Enumerator();
      clients, nextId, world := map[], 0, GENESIS;
      names, requests := map[], [];
      new;
      TxTheorems.GenesisInv();
      ResetAgrees(table.types[..]);
      FirstRegistry(table.targets[..], wild);
    }

    /** What an application that asks for the devices gets: it sees addresses 0 and 1, and exactly the addresses that
        enumeration gave out whose class is not 0xFF, each with its class as a signed char, in address order. */
    lemma DevicesSeen(d: Device, rest: seq<byte>)
      requires Valid()
      ensures var ds := Existing(table.types[..], ADDRESSES);
        && Libsric.RefreshAnswer(true, ListBytes(ds) + rest) == Some(ds + [SENTINEL]) && ds != []
        && Walk(ds + [SENTINEL], 0) == ds
        && (d in ds <==> d == Device(0, BROADCAST) || d == Device(1, MASTER)
                         || (d.address >= 2 && d.address in enumerator.added && enumerator.added[d.address] != 0xFF
                           && d.kind == SignedChar(enumerator.added[d.address])))
    {
      hide RegistryFine;
      hide Inv, Existing, Entries, EntriesRead, Walk, DeviceTable.Valid, Enumerator.Valid, SerialTransmitter.Valid;
      WalkAfterEnumeration(table.types[..], enumerator.added, d);
      ExistingFit(table.types[..]);
      EntriesRoundTrip(Existing(table.types[..], ADDRESSES));
      Libsric.RefreshRoundTrip(table.types[..], rest);
    }

    // ----- The bus -----

    method CanWrite(count: nat) returns (stay: bool)
      requires Valid() && tx.writeWatch
      modifies tx, tx.txq, tx.txbuf, `world
      ensures Valid() && stay == tx.writeWatch && Follows(old(world), Wrote(count), world)
      ensures old(TagsFine(world)) ==> TagsFine(world)
    {
      hide RegistryFine;
      hide Inv, Possible, NextWorld, TagsFine, OnWritable, DeviceTable.Valid, Enumerator.Valid, AllFramesValid,
        AllDifferent;
      ghost var w := world;
      WroteNext(w, count);
      HistoryStep(w, Wrote(count));
      stay := tx.IfTx(count);
      world := NextWorld(w, Wrote(count));
    }

    method RetransmitTimedOut(id: nat)
      requires Valid() && id in tx.timers
      modifies tx, `world
      ensures Valid() && Follows(old(world), TimedOut(id), world)
      ensures old(TagsFine(world)) ==> TagsFine(world)
    {
      hide RegistryFine;
      hide Inv, Possible, NextWorld, TagsFine, OnExpire, DeviceTable.Valid, Enumerator.Valid, AllFramesValid,
        AllDifferent;
      ghost var w := world;
      TimedOutNext(w, id);
      HistoryStep(w, TimedOut(id));
      tx.TxTimeout(id);
      world := NextWorld(w, TimedOut(id));
    }

    /** A call: the ack is queued, and a note goes to those who want it; `shift` is what the platform makes of a shift
        by 64 or more. */
    method Call(f: seq<byte>, shift: bv64)
      requires Valid() && WholeFrame(f) && f[SRIC_SRC] % 0x80 < table.targets.Length
      modifies tx`writeWatch, tx.txq, `nextId, `world, set t | t in table.targets[f[SRIC_SRC] % 0x80] :: t.who
      ensures Valid() && Follows(old(world), Responded(Response(f, old(nextId))), world)
      ensures old(TagsFine(world)) ==> TagsFine(world)
      ensures tx.Abs() == OnPush(old(tx.Abs()), Response(f, old(nextId)), 0)
      ensures NoteOffered(old(table.targets[f[SRIC_SRC] % 0x80]), f, shift) && NoteReaches(clients, requests, f)
    {
      hide RegistryFine;
      hide Inv, Possible, NextWorld, TagsFine, OnPush, DeviceTable.Valid, Offered, Shifted, Client.Snapshot,
        AllFramesValid, LastAsked, Dispatched, NoteIn;
      var response := Response(f, nextId);
      ghost var w := world;
      RespondedNext(w, response);
      HistoryStep(w, Responded(response));
      Respond(f, response, shift);
      nextId := nextId + 1;
      world := NextWorld(w, Responded(response));
    }

    method Respond(f: seq<byte>, response: TxFrame, shift: bv64)
      requires Registered() && Parts() && WholeFrame(f) && response.Valid() && f[SRIC_SRC] % 0x80 < table.targets.Length
      modifies tx`writeWatch, tx.txq, set t | t in table.targets[f[SRIC_SRC] % 0x80] :: t.who
      ensures Parts() && tx.Abs() == OnPush(old(tx.Abs()), response, 0)
      ensures NoteOffered(old(table.targets[f[SRIC_SRC] % 0x80]), f, shift) && NoteReaches(clients, requests, f)
    {
      hide OnPush, Offered, Shifted, Client.Snapshot, RegistryFine, LastAsked, Dispatched, Has, Bit, Registered;
      tx.TxqPush(response, 0);
      if f[SRIC_LEN] != 0 {
        OfferNote(f, shift);
      }
    }

    method OfferNote(f: seq<byte>, shift: bv64)
      requires Registered() && table.Valid() && WholeFrame(f) && f[SRIC_LEN] != 0
      requires f[SRIC_SRC] % 0x80 < table.targets.Length
      modifies set t | t in table.targets[f[SRIC_SRC] % 0x80] :: t.who
      ensures NoteOffered(old(table.targets[f[SRIC_SRC] % 0x80]), f, shift) && NoteReaches(clients, requests, f)
    {
      hide Offered, Client.Snapshot, RegistryFine, LastAsked, Dispatched, Has, Bit, DeviceTable.Valid;
      TableSize(table);
      table.DispatchNote(ForClients(f, f[SRIC_DATA]), shift);
      ghost var note := NoteIn(f).value;
      ghost var ts := table.targets[note.source];
      if note.note < 64 {
        assert table.targets[..] == old(table.targets[..]) && Shifted(note.note, shift) == Bit(note.note);
        forall k | k in clients
          ensures clients[k].Snapshot()
               == Offered(old(clients[k].Snapshot()), Has(LastAsked(requests, k, note.source), Bit(note.note)), note)
        {
          ghost var c := clients[k];
          if !Listed(ts, c) {
            assert forall t :: t in ts ==> t.who != c;
          }
          RegistryReaches(table.targets[..], names, requests, table.wild, clients, world.known, k, note,
                          old(c.Snapshot()), c.Snapshot());
        }
      }
    }

    /** An ack: while enumerating, the enumeration code gets it, queues what comes next and, when it is done, adds the
        devices; afterwards the sender of the frame in flight gets the response. */
    method Ack(f: seq<byte>) returns (fate: Fate)
      requires Valid() && WholeFrame(f)
      modifies tx, tx.txq, enumerator, enumerator.classes, table.types, `nextId, `world, clients.Values
      ensures Valid()
      ensures var h := old(Heard(f));
        && Follows(old(world), h, world) && (old(TagsFine(world)) && Orderly(old(world), h) ==> TagsFine(world))
        && (old(TagsFine(world)) && Delivered(old(tx.Abs())).Some? ==> (fate == GoesOn <==> Orderly(old(world), h)))
      ensures enumerator.Abs() == old(EnumAfterAck(f)) && table.types[..] == old(TypesAfterAck(f))
      ensures fate == FateOf(old(tx.Abs()), clients.Keys, enumerator.Abs())
      ensures ResponseGiven(clients, Delivered(old(tx.Abs())), ForClients(f, 0))
    {
      hide Inv, Possible, NextWorld, TagsFine, Orderly, AckOf, Answered, Client.Snapshot, DeviceTable.Valid,
        TableAgrees;
      hide Enumerator.Valid, EnumAfter, TypesAfter, FateOf, OnAck, Delivered, ReplyOf, AllFramesValid, AllDifferent,
        RegistryFine;
      EnumeratorFine(enumerator);
      ghost var w, h := world, AckOf(tx.Abs(), enumerator.Abs(), ReplyOf(f), nextId);
      AckedNext(w, enumerator.Abs(), ReplyOf(f));
      TableAfter(table.types[..], tx.Abs(), enumerator.Abs(), ReplyOf(f));
      HistoryStep(w, h);
      var queued;
      fate, queued := Settle(f);
      FateIs(w, h, enumerator.Abs());
      nextId := nextId + queued;
      world := NextWorld(w, h);
    }

    /** All of it but the history. */
    method Settle(f: seq<byte>) returns (fate: Fate, queued: nat)
      requires Parts() && AllDifferent(clients) && WholeFrame(f)
      modifies tx, tx.txq, enumerator, enumerator.classes, table.types, clients.Values
      ensures Parts() && tx.port == old(tx.port)
      ensures var h := AckOf(old(tx.Abs()), old(enumerator.Abs()), ReplyOf(f), nextId);
        h.Acked? && queued == |h.pushes| && tx.Abs() == OnAck(old(tx.Abs()), h.pushes, h.done)
      ensures enumerator.Abs() == EnumAfter(old(tx.Abs()), old(enumerator.Abs()), ReplyOf(f))
      ensures table.types[..] == TypesAfter(old(table.types[..]), old(enumerator.Abs()), enumerator.Abs())
      ensures fate == FateOf(old(tx.Abs()), clients.Keys, enumerator.Abs())
      ensures ResponseGiven(clients, Delivered(old(tx.Abs())), ForClients(f, 0))
    {
      hide OnAck, DeviceTable.Valid, Enumerator.Valid, Answered, Client.Snapshot, AckOf, EnumAfter, TypesAfter,
        Delivered;
      hide AllFramesValid, ReplyOf, AllDifferent, SerialTransmitter.Valid, Apart;
      var tag;
      tag, queued := Absorb(ReplyOf(f));
      fate := Answer(tag, ForClients(f, 0));
    }

    /** The part of the enumeration code and the transmitter in it. */
    method Absorb(r: E.Reply) returns (tag: Option<Tag>, queued: nat)
      requires Parts()
      modifies tx, tx.txq, enumerator, enumerator.classes, table.types
      ensures Parts() && tag == Delivered(old(tx.Abs())) && tx.port == old(tx.port)
      ensures var h := AckOf(old(tx.Abs()), old(enumerator.Abs()), r, nextId);
        h.Acked? && queued == |h.pushes| && tx.Abs() == OnAck(old(tx.Abs()), h.pushes, h.done)
      ensures enumerator.Abs() == EnumAfter(old(tx.Abs()), old(enumerator.Abs()), r)
      ensures table.types[..] == TypesAfter(old(table.types[..]), old(enumerator.Abs()), enumerator.Abs())
    {
      hide OnAck, DeviceTable.Valid, Enumerator.Valid, AckOf, EnumAfter, TypesAfter, Delivered, AllFramesValid;
      EnumeratorFine(enumerator);
      var pushes, done := Consult(r);
      queued := |pushes|;
      tag := Retire(pushes, done);
    }

    method Retire(pushes: seq<TxFrame>, done: bool) returns (tag: Option<Tag>)
      requires Parts() && AllFramesValid(pushes)
      modifies tx, tx.txq
      ensures Parts() && tx.Abs() == OnAck(old(tx.Abs()), pushes, done) && tag == Delivered(old(tx.Abs()))
      ensures tx.port == old(tx.port)
    {
      hide OnAck, Delivered, DeviceTable.Valid, Enumerator.Valid, AllFramesValid;
      tag := tx.AckReceived(pushes, done);
    }

    method Answer(tag: Option<Tag>, rx: RxFrame) returns (fate: Fate)
      requires AllDifferent(clients)
      modifies clients.Values
      ensures fate == match tag
        case Some(t) => if t.ClientTag? && t.client in clients then GoesOn else NobodyToAnswer
        case None => if enumerator.state == E.Exited then GivesUp else GoesOn
      ensures ResponseGiven(clients, tag, rx)
    {
      hide Answered, Client.Snapshot;
      if tag.None? {
        return if enumerator.state == E.Exited then GivesUp else GoesOn;
      }
      if !tag.value.ClientTag? || tag.value.client !in clients {
        return NobodyToAnswer;
      }
      clients[tag.value.client].PushRx(rx);
      fate := GoesOn;
    }

    /** What sric_enum_rx does, if it is called at all. */
    method Consult(r: E.Reply) returns (pushes: seq<TxFrame>, done: bool)
      requires Parts()
      modifies enumerator, enumerator.classes, table.types
      ensures Parts() && tx.Abs() == old(tx.Abs())
      ensures AckOf(tx.Abs(), old(enumerator.Abs()), r, nextId) == Acked(pushes, done) && AllFramesValid(pushes)
      ensures enumerator.Abs() == EnumAfter(tx.Abs(), old(enumerator.Abs()), r)
      ensures table.types[..] == TypesAfter(old(table.types[..]), old(enumerator.Abs()), enumerator.Abs())
    {
      pushes, done := [], false;
      if tx.txFrame.None? || tx.frameCancelled || tx.enumerated {
        return;
      }
      SentValid(enumerator.Abs(), r);
      FramesPossible(E.OnReply(enumerator.Abs(), r).sent, nextId);
      hide E.OnReply, SerialTransmitter.Valid;
      var before, was := |enumerator.sent|, enumerator.state;
      var more := enumerator.Rx(r);
      pushes, done := FramesFor(enumerator.sent[before..], nextId), !more;
      if done && was != E.Done {
        table.AddClasses(enumerator.classes, enumerator.nextAddress);
      }
    }

    /** proc_rx_frame */
    method ProcRxFrame(f: seq<byte>, shift: bv64) returns (fate: Fate)
      requires Valid() && WholeFrame(f)
      modifies tx, tx.txq, enumerator, enumerator.classes, table.types, `nextId, `world, clients.Values,
        set t | t in table.targets[f[SRIC_SRC] % 0x80] :: t.who
      ensures Valid()
      ensures !ForDaemon(f) ==>
        && world == old(world) && fate == GoesOn && (forall k :: k in clients ==> unchanged(clients[k]))
        && unchanged(this, tx, tx.txq, enumerator, enumerator.classes, table.types, table.targets)
      ensures ForDaemon(f) && !IsAck(f) ==>
        && Follows(old(world), Responded(Response(f, old(nextId))), world) && fate == GoesOn
        && NoteOffered(old(table.targets[f[SRIC_SRC] % 0x80]), f, shift) && NoteReaches(clients, requests, f)
        && unchanged(enumerator, enumerator.classes, table.types, table.targets)
      ensures ForDaemon(f) && IsAck(f) ==>
        && Follows(old(world), old(Heard(f)), world) && enumerator.Abs() == old(EnumAfterAck(f))
        && table.types[..] == old(TypesAfterAck(f)) && unchanged(table.targets)
        && fate == FateOf(old(tx.Abs()), clients.Keys, enumerator.Abs())
        && ResponseGiven(clients, Delivered(old(tx.Abs())), ForClients(f, 0))
    {
      hide RegistryFine;
      hide Inv, Follows, Offered, Shifted, Answered, Client.Snapshot, FateOf, AckOf, ReplyOf, Delivered, OnAck, OnPush;
      hide Heard, EnumAfterAck, TypesAfterAck, TagsFine, Orderly, AllFramesValid, DeviceTable.Valid, Enumerator.Valid;
      if !ForDaemon(f) {
        return GoesOn;
      }
      if IsAck(f) {
        EnumeratorFine(enumerator);
        fate := Ack(f);
      } else {
        TableSize(table);
        Call(f, shift);
        fate := GoesOn;
      }
    }

    // ----- Enumeration's timers -----

    /** sric_enum_start */
    method StartEnumeration()
      requires Valid() && !tx.enumerated && enumerator.state == E.Idle
      modifies enumerator, tx`writeWatch, tx.txq, `nextId, `world
      ensures Valid() && (old(TagsFine(world)) ==> TagsFine(world))
      ensures var x := E.Fsm(old(enumerator.Abs()), E.StartEnum);
        enumerator.Abs() == x.e && tx.txq.high == old(tx.txq.high) + FramesFor(x.sent, old(nextId))
    {
      var before := |enumerator.sent|;
      TimersSendValid(enumerator.Abs());
      TimersAddNothing(enumerator.Abs());
      hide RegistryFine;
      hide Inv, TagsFine, FramesFor, DeviceTable.Valid, SerialTransmitter.Valid, AllDifferent;
      hide E.Fsm, E.OnKillTimeout, E.OnResetTimeout;
      enumerator.Fsm(E.StartEnum);
      QueueAll(enumerator.sent[before..]);
    }

    /** kill_token_timeout */
    method KillTokenTimedOut()
      requires Valid() && !tx.enumerated && enumerator.killTimer
      modifies enumerator, tx`writeWatch, tx.txq, `nextId, `world
      ensures Valid() && (old(TagsFine(world)) ==> TagsFine(world))
      ensures var x := E.OnKillTimeout(old(enumerator.Abs()));
        enumerator.Abs() == x.e && tx.txq.high == old(tx.txq.high) + FramesFor(x.sent, old(nextId))
    {
      var before := |enumerator.sent|;
      TimersSendValid(enumerator.Abs());
      TimersAddNothing(enumerator.Abs());
      hide RegistryFine;
      hide Inv, TagsFine, FramesFor, DeviceTable.Valid, SerialTransmitter.Valid, AllDifferent;
      hide E.Fsm, E.OnKillTimeout, E.OnResetTimeout;
      enumerator.KillTokenTimeout();
      QueueAll(enumerator.sent[before..]);
    }

    /** send_reset_timeout */
    method ResetTimedOut()
      requires Valid() && !tx.enumerated && enumerator.resetTimer
      modifies enumerator, tx`writeWatch, tx.txq, `nextId, `world
      ensures Valid() && (old(TagsFine(world)) ==> TagsFine(world))
      ensures var x := E.OnResetTimeout(old(enumerator.Abs()));
        enumerator.Abs() == x.e && tx.txq.high == old(tx.txq.high) + FramesFor(x.sent, old(nextId))
    {
      var before := |enumerator.sent|;
      TimersSendValid(enumerator.Abs());
      TimersAddNothing(enumerator.Abs());
      hide RegistryFine;
      hide Inv, TagsFine, FramesFor, DeviceTable.Valid, SerialTransmitter.Valid, AllDifferent;
      hide E.Fsm, E.OnKillTimeout, E.OnResetTimeout;
      var again := enumerator.SendResetTimeout();
      QueueAll(enumerator.sent[before..]);
    }

    /** Frames queued by the enumeration code, one txq_push each. */
    method QueueAll(ms: seq<Message>)
      requires Valid() && !tx.enumerated && forall m :: m in ms ==> m.Valid()
      modifies tx`writeWatch, tx.txq, `nextId, `world
      ensures Valid() && (old(TagsFine(world)) ==> TagsFine(world))
      ensures tx.txFrame == old(tx.txFrame) && tx.txq.low == old(tx.txq.low)
      ensures tx.txq.high == old(tx.txq.high) + FramesFor(ms, old(nextId))
    {
      ghost var high, id := tx.txq.high, nextId;
      assert ms[..0] == [] && high + FramesFor([], id) == high;
      hide RegistryFine;
      hide Inv, TagsFine, FramesFor, DeviceTable.Valid, Enumerator.Valid;
      for i := 0 to |ms|
        invariant Valid() && !tx.enumerated && tx.txFrame == old(tx.txFrame) && nextId == id + i
        invariant old(TagsFine(world)) ==> TagsFine(world)
        invariant tx.txq.high == high + FramesFor(ms[..i], id) && tx.txq.low == old(tx.txq.low)
      {
        OneMoreFrame(ms, i, id, high);
        Queue(ms[i]);
      }
      assert ms[..|ms|] == ms;
    }

    method Queue(m: Message)
      requires Valid() && !tx.enumerated && m.Valid()
      modifies tx`writeWatch, tx.txq, `nextId, `world
      ensures Valid() && Follows(old(world), Enumerated(FrameFor(m, old(nextId))), world)
      ensures old(TagsFine(world)) ==> TagsFine(world)
      ensures tx.txq.high == old(tx.txq.high) + [FrameFor(m, old(nextId))] && tx.txq.low == old(tx.txq.low)
      ensures nextId == old(nextId) + 1
    {
      hide RegistryFine;
      hide Inv, Possible, NextWorld, TagsFine, DeviceTable.Valid, Enumerator.Valid, AllFramesValid;
      var f := FrameFor(m, nextId);
      ghost var w := world;
      EnumeratedNext(w, f);
      HistoryStep(w, Enumerated(f));
      tx.TxqPush(f, 0);
      nextId := nextId + 1;
      world := NextWorld(w, Enumerated(f));
    }

    // ----- Clients come, ask and go -----

    /** ipc_new: the daemon listens once the bus is enumerated. */
    method Connect(k: nat, bytes: seq<byte>) returns (c: Client)
      requires Valid() && tx.enumerated && k !in clients && k !in world.known
      modifies `clients, `world, `names
      ensures Valid() && Follows(old(world), Connected(k), world) && (old(TagsFine(world)) ==> TagsFine(world))
      ensures fresh(c) && clients == old(clients)[k := c]
      ensures c.Snapshot() == State(D.EMPTY, D.EMPTY, Mask(0, 0), bytes, [])
    {
      hide RegistryFine;
      hide Inv, Possible, NextWorld, TagsFine, DeviceTable.Valid, Enumerator.Valid, SerialTransmitter.Valid,
        AllDifferent, TableAgrees;
      ghost var w := world;
      ConnectedNext(w, k);
      HistoryStep(w, Connected(k));
      c := new Client(bytes);
      MoreDifferent(clients, k, c);
      RegistryJoined(table.targets[..], names, requests, table.wild, clients, w.known, k, c);
      names := names[c := k];
      clients := clients[k := c];
      world := NextWorld(w, Connected(k));
    }

    /** ipc_client_incoming: the command byte decides who reads the rest. Returns whether there was anything to read;
        `id` is what glib would call a new timer, `junk` what is in an uninitialised variable. */
    method Incoming(k: nat, c: Client, id: nat, junk: bv64) returns (open: bool)
      requires Valid() && k in clients && clients[k] == c && id != 0 && id !in c.rxTimers && id !in c.noteTimers
      requires c.inbox != [] && c.inbox[0] == SRICD_TX ==>
        var request := TxRead(c.inbox[1..]);
        request.Some? ==> request.value.0 < table.types.Length && |request.value.1| <= PAYLOAD_MAX
      requires |c.inbox| >= 3 && c.inbox[0] == SRICD_NOTE_FLAGS ==> OfBe16(c.inbox[1], c.inbox[2]) < ADDRESSES
      modifies tx`writeWatch, tx.txq, `nextId, `world, `requests, table.targets, c
      ensures Valid() && (old(TagsFine(world)) ==> TagsFine(world)) && (open <==> old(c.inbox) != [])
      ensures !open ==> unchanged(c, table.targets) && world == old(world) && requests == old(requests)
      ensures open ==>
        var command, input, said := old(c.inbox)[0], old(c.inbox)[1..], old(c.written);
        && (command != SRICD_TX ==> world == old(world))
        && (command != SRICD_NOTE_FLAGS && command != SRICD_NOTE_CLEAR ==> unchanged(table.targets))
        && (command != SRICD_POLL_RX ==> c.RxSide() == old(c.RxSide()))
        && (command != SRICD_POLL_NOTE ==> c.NoteSide() == old(c.NoteSide()))
        && requests == old(requests) + RequestsIn(k, command, input, junk, table.types[..])
        && match command
           case 0 =>
             TxServed(k, input, c.inbox, said, c.written, old(world), world, old(nextId), table.types[..])
           case 1 =>
             FlagsServed(c, input, said, c.written, junk, old(table.targets[..]), table.targets[..],
                         old(c.mask), c.mask, table.types[..], table.wild)
           case 2 => PollServed(old(c.RxSide()), input, said, id, c.RxSide(), c.inbox, c.written)
           case 3 => PollServed(old(c.NoteSide()), input, said, id, c.NoteSide(), c.inbox, c.written)
           case 4 =>
             && table.targets[..] == AllDropped(old(table.targets[..]), c) && c.written == said + [E_SUCCESS]
             && c.mask == MaskFrom(old(c.mask), 2, table.wild) && c.inbox == input
           case 5 => c.written == said + ListBytes(Existing(table.types[..], ADDRESSES)) && c.inbox == input
           case _ => c.written == said + [E_BADREQUEST] && c.inbox == input
    {
      hide Valid, Parts, Registered, Inv, TagsFine, TxServed, PollServed, FlagsServed, AllDropped, MaskFrom, ListBytes;
      hide Existing, TxRead, OfBe16, RequestsIn;
      var data := c.ReadData(1);
      if data == None {
        return false;
      }
      open := true;
      if data.value[0] != SRICD_NOTE_FLAGS {
        ClearsOrNothing(k, data.value[0], c.inbox, junk, table.types[..]);
      }
      assert requests + [] == requests;
      match data.value[0] {
        case 0 => HandleTx(k, c);
        case 1 => ServeFlags(k, c, junk);
        case 4 => ServeClear(k, c);
        case _ => ServeReading(data.value[0], c, id);
      }
    }

    /** The commands that change nothing but the client. */
    method ServeReading(command: byte, c: Client, id: nat)
      requires Valid() && command !in {SRICD_TX, SRICD_NOTE_FLAGS, SRICD_NOTE_CLEAR}
      requires id != 0 && id !in c.rxTimers && id !in c.noteTimers
      modifies c
      ensures c.mask == old(c.mask)
      ensures command != SRICD_POLL_RX ==> c.RxSide() == old(c.RxSide())
      ensures command != SRICD_POLL_NOTE ==> c.NoteSide() == old(c.NoteSide())
      ensures match command
        case 2 => PollServed(old(c.RxSide()), old(c.inbox), old(c.written), id, c.RxSide(), c.inbox, c.written)
        case 3 => PollServed(old(c.NoteSide()), old(c.inbox), old(c.written), id, c.NoteSide(), c.inbox, c.written)
        case 5 =>
          c.written == old(c.written) + ListBytes(Existing(table.types[..], ADDRESSES)) && c.inbox == old(c.inbox)
        case _ => c.written == old(c.written) + [E_BADREQUEST] && c.inbox == old(c.inbox)
    {
      hide PollServed, ListBytes, Existing, Enumerator.Valid, SerialTransmitter.Valid;
      match command {
        case 2 => c.HandlePollRx(id);
        case 3 => c.HandlePollNote(id);
        case 5 => table.HandleListDevices(c);
        case _ => c.WriteResult(E_BADREQUEST);
      }
    }

    method ServeFlags(k: nat, c: Client, junk: bv64)
      requires Valid() && k in clients && clients[k] == c
      requires |c.inbox| >= 2 ==> OfBe16(c.inbox[0], c.inbox[1]) < ADDRESSES
      modifies table.targets, `requests, c`mask, c`inbox, c`written
      ensures Valid()
      ensures FlagsServed(c, old(c.inbox), old(c.written), c.written, junk, old(table.targets[..]), table.targets[..],
                          old(c.mask), c.mask, table.types[..], table.wild)
      ensures requests == old(requests) + RequestsIn(k, SRICD_NOTE_FLAGS, old(c.inbox), junk, table.types[..])
    {
      hide RegistryFine, Inv, FlagsServed, Enumerator.Valid, SerialTransmitter.Valid, OfBe16, AllDifferent,
        TableAgrees, RequestsIn;
      table.HandleNoteFlags(c, junk);
      RegistryAsked(c, old(c.inbox), old(c.written), c.written, junk, old(table.targets[..]), table.targets[..],
                    old(c.mask), c.mask, table.types[..], table.wild, names, requests, clients, world.known, k);
      requests := requests + RequestsIn(k, SRICD_NOTE_FLAGS, old(c.inbox), junk, table.types[..]);
    }

    method ServeClear(k: nat, c: Client)
      requires Valid() && k in clients && clients[k] == c
      modifies table.targets, `requests, c`mask, c`written
      ensures Valid() && table.targets[..] == AllDropped(old(table.targets[..]), c)
      ensures requests == old(requests) + [Clear(k)]
      ensures c.mask == MaskFrom(old(c.mask), 2, table.wild) && c.written == old(c.written) + [E_SUCCESS]
    {
      hide RegistryFine, Inv, AllDropped, MaskFrom, Enumerator.Valid, SerialTransmitter.Valid, AllDifferent,
        TableAgrees;
      RegistryCleared(table.targets[..], names, requests, table.wild, clients, world.known, k);
      table.HandleNoteClear(c);
      requests := requests + [Clear(k)];
    }

    /** handle_tx: a frame of client k goes to the low priority queue, if its device exists. */
    method HandleTx(k: nat, c: Client)
      requires Valid() && k in clients && clients[k] == c
      requires var request := TxRead(c.inbox);
        request.Some? ==> request.value.0 < table.types.Length && |request.value.1| <= PAYLOAD_MAX
      modifies tx`writeWatch, tx.txq, `nextId, `world, c`inbox, c`written
      ensures Valid() && (old(TagsFine(world)) ==> TagsFine(world))
      ensures TxServed(k, old(c.inbox), c.inbox, old(c.written), c.written, old(world), world, old(nextId),
                       table.types[..])
    {
      hide Valid, Parts, Registered, Inv, Follows, TagsFine;
      ghost var input := c.inbox;
      var data := c.ReadData(4);
      if data == None {
        c.WriteResult(E_BADREQUEST);
        return;
      }
      var b := data.value;
      var address, length := b[0] as int + 256 * b[1] as int, b[2] as int + 256 * b[3] as int;
      data := c.ReadData(length);
      if data == None {
        c.WriteResult(E_BADREQUEST);
        return;
      }
      assert data.value == input[4..4 + length] && c.inbox == input[4 + length..];
      if !table.DeviceExists(address) {
        c.WriteResult(E_BADADDR);
        return;
      }
      QueueFor(k, address, data.value);
      c.WriteResult(E_SUCCESS);
    }

    method QueueFor(k: nat, address: int, payload: seq<byte>)
      requires Valid() && k in clients && |payload| <= PAYLOAD_MAX
      modifies tx`writeWatch, tx.txq, `nextId, `world
      ensures Valid() && (old(TagsFine(world)) ==> TagsFine(world))
      ensures Follows(old(world), Sent(k, TxFrame(old(nextId), FRAME_SRIC, address, ClientTag(k), payload)), world)
    {
      hide RegistryFine;
      hide Inv, Possible, NextWorld, TagsFine, DeviceTable.Valid, Enumerator.Valid, AllFramesValid, OnPush;
      var f := TxFrame(nextId, FRAME_SRIC, address, ClientTag(k), payload);
      ghost var w := world;
      SentNext(w, k, f);
      HistoryStep(w, Sent(k, f));
      tx.TxqPush(f, 1);
      nextId := nextId + 1;
      world := NextWorld(w, Sent(k, f));
    }

    /** timeout_callback: everything that the client still had to send is given up, and it is told so. */
    method PollTimedOut(k: nat, c: Client, id: nat)
      requires Valid() && k in clients && clients[k] == c && id in c.rxTimers
      modifies tx`frameCancelled, tx.txq, `world, c`rxTimer, c`rxTimers, c`written
      ensures Valid() && Follows(old(world), TxRuns.PollTimedOut(k), world)
      ensures old(TagsFine(world)) ==> TagsFine(world)
      ensures var (side, replies) := D.Step(old(c.RxSide()), D.Expire(id));
        c.RxSide() == side && c.written == old(c.written) + AllBytes(replies)
    {
      hide RegistryFine;
      hide Inv, Possible, NextWorld, TagsFine, DeviceTable.Valid, Enumerator.Valid, AllFramesValid, OnCancel, D.Step,
        AllBytes;
      ghost var w := world;
      PollTimedOutNext(w, k);
      HistoryStep(w, TxRuns.PollTimedOut(k));
      tx.TxqCancel(ClientTag(k));
      c.RxTimeout(id);
      world := NextWorld(w, TxRuns.PollTimedOut(k));
    }

    /** client_destroy; the client's poll timers stay as they are. */
    method Disconnect(k: nat, c: Client)
      requires Valid() && k in clients && clients[k] == c
      modifies `clients, `world, `requests, tx`frameCancelled, tx.txq, table.targets, c`mask
      ensures Valid() && Follows(old(world), Died(k), world) && (old(TagsFine(world)) ==> TagsFine(world))
      ensures clients == old(clients) - {k} && c.rxTimers == old(c.rxTimers) && c.noteTimers == old(c.noteTimers)
      ensures table.targets[..] == AllDropped(old(table.targets[..]), c) && requests == old(requests) + [Clear(k)]
    {
      hide RegistryFine;
      hide Inv, Possible, NextWorld, TagsFine, DeviceTable.Valid, Enumerator.Valid, OnCancel, AllDropped, AllDifferent,
        TableAgrees, AllFramesValid;
      ghost var w := world;
      DiedNext(w, k);
      HistoryStep(w, Died(k));
      FewerDifferent(clients, k);
      RegistryCleared(table.targets[..], names, requests, table.wild, clients, w.known, k);
      tx.TxqCancel(ClientTag(k));
      assert tx.txlen <= tx.txbuf.Length;
      hide SerialTransmitter.Valid;
      ForgetNotes(c);
      requests := requests + [Clear(k)];
      clients := clients - {k};
      world := NextWorld(w, Died(k));
    }

    method ForgetNotes(c: Client)
      requires Parts()
      modifies table.targets, c`mask
      ensures table.Valid() && unchanged(tx, tx.txq, tx.txbuf, tx.crcTable, enumerator, enumerator.classes)
      ensures table.targets[..] == AllDropped(old(table.targets[..]), c)
    {
      TableSize(table);
      hide DeviceTable.Valid, AllDropped, Enumerator.Valid, SerialTransmitter.Valid;
      table.ClearClientNotes(c);
    }
  }
}
