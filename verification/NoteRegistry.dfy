/** The daemon's registry of who wants which notes, over whole runs (sricd/device.c). */
module NoteRegistry {
  import opened FlagWord
  import opened NoteTargets

  const ADDRESSES := 128
  const NO_FLAGS: bv64 := 0

  /** A client's device_note_data: one bit per device that it has flags for. */
  datatype Mask = Mask(word0: bv64, word1: bv64)

  function Place(address: nat): nat { if address > 64 then address - 64 else address }

  function WordFor(m: Mask, address: nat): bv64 { if address > 64 then m.word1 else m.word0 }

  function NewWord(w: bv64, flag: bv64, notes: bv64): bv64 { if notes != 0 then Or(w, flag) else AndNot(w, flag) }

  function NewMask(m: Mask, address: nat, notes: bv64, wild: bv64): Mask {
    var flag := Shifted(Place(address), wild);
    if address > 64 then Mask(m.word0, NewWord(m.word1, flag, notes)) else Mask(NewWord(m.word0, flag, notes), m.word1)
  }

  /** Asking for notes of one address sets one bit of an empty mask: the address's own in the first word, or in the
      second the one 64 below it. */
  lemma OneBitOfMask(address: nat, notes: bv64, wild: bv64)
    requires address < ADDRESSES && address != 64 && notes != 0
    ensures NewMask(Mask(0, 0), address, notes, wild)
         == if address < 64 then Mask(Bit(address), 0) else Mask(0, Bit(address - 64))
  {
    OrNothing(Shifted(Place(address), wild));
    hide Or, Bit;
  }

  datatype Registry = Registry(targets: seq<seq<Target<nat>>>, masks: map<nat, Mask>) {
    predicate Sized() { |targets| == ADDRESSES }
  }

  function EmptyLists(n: nat): (r: seq<seq<Target<nat>>>)
    ensures |r| == n && forall i :: 0 <= i < n ==> r[i] == []
  {
    if n == 0 then [] else EmptyLists(n - 1) + [[]]
  }

  const NOBODY := Registry(EmptyLists(ADDRESSES), map[])

  function MaskOf(r: Registry, k: nat): Mask {
    if k in r.masks then r.masks[k] else Mask(0, 0)
  }

  /** device_set_client_notes */
  function OnSet(r: Registry, k: nat, address: nat, notes: bv64, wild: bv64): (r': Registry)
    requires r.Sized() && address < ADDRESSES
    ensures r'.Sized()
  {
    Registry(r.targets[address := SetNotes(r.targets[address], k, notes)],
             r.masks[k := NewMask(MaskOf(r, k), address, notes, wild)])
  }

  /** device_clear_client_notes, from address i on. */
  function ClearFrom(r: Registry, k: nat, i: nat, wild: bv64): (r': Registry)
    requires r.Sized()
    ensures r'.Sized()
    decreases ADDRESSES - i
  {
    if i >= ADDRESSES then r else ClearFrom(OnSet(r, k, i, 0, wild), k, i + 1, wild)
  }

  datatype Request = SetFlags(client: nat, address: nat, flags: bv64) | Clear(client: nat)

  predicate Legal(es: seq<Request>) {
    forall e :: e in es ==> e.SetFlags? ==> e.address < ADDRESSES
  }

  function Next(r: Registry, e: Request, wild: bv64): (r': Registry)
    requires r.Sized() && (e.SetFlags? ==> e.address < ADDRESSES)
    ensures r'.Sized()
  {
    match e
    case SetFlags(k, address, flags) => OnSet(r, k, address, flags, wild)
    case Clear(k) => ClearFrom(r, k, 2, wild)
  }

  function After(es: seq<Request>, wild: bv64): (r: Registry)
    requires Legal(es)
    ensures r.Sized()
    decreases |es|
  {
    if es == [] then NOBODY
    else
      assert forall e :: e in es[..|es| - 1] ==> e in es;
      Next(After(es[..|es| - 1], wild), es[|es| - 1], wild)
  }

  /** A mask after the bits for the addresses from i on are cleared, one after the other. */
  function MaskFrom(m: Mask, i: nat, wild: bv64): Mask
    decreases ADDRESSES - i
  {
    if i >= ADDRESSES then m else MaskFrom(NewMask(m, i, 0, wild), i + 1, wild)
  }

  /** Clearing a client in the model: its entry goes from every list from i on, its mask bits with it. */
  lemma {:induction false} ClearFromAt(r: Registry, k: nat, i: nat, wild: bv64, a: nat)
    requires r.Sized() && a < ADDRESSES
    ensures var r' := ClearFrom(r, k, i, wild);
      && r'.targets[a] == (if a >= i then Drop(r.targets[a], k) else r.targets[a])
      && MaskOf(r', k) == MaskFrom(MaskOf(r, k), i, wild)
    decreases ADDRESSES - i
  {
    hide Drop, NewMask;
    if i < ADDRESSES {
      ClearFromAt(OnSet(r, k, i, 0, wild), k, i + 1, wild, a);
    }
  }

  /** So clearing a client's notes is the model's request to do so: on every list and on the mask. */
  lemma ClearIsRequest(r: Registry, k: nat, wild: bv64)
    requires r.Sized()
    ensures var r' := Next(r, Clear(k), wild);
      r'.targets == AllDropped(r.targets, k) && MaskOf(r', k) == MaskFrom(MaskOf(r, k), 2, wild)
  {
    hide Drop, MaskFrom, MaskOf, ClearFrom;
    ClearFromAt(r, k, 2, wild, 0);
    forall a: nat | a < ADDRESSES ensures Next(r, Clear(k), wild).targets[a] == AllDropped(r.targets, k)[a] {
      ClearFromAt(r, k, 2, wild, a);
    }
  }

  // ----- The lists are a map -----

  predicate AllProper(r: Registry) {
    forall ts :: ts in r.targets ==> Proper(ts)
  }

  function Flags(r: Registry, k: nat, address: nat): bv64
    requires r.Sized() && address < ADDRESSES
  {
    FlagsOf(r.targets[address], k)
  }

  lemma SetKeeps(r: Registry, k: nat, address: nat, notes: bv64, wild: bv64, j: nat, a: nat)
    requires r.Sized() && AllProper(r) && address < ADDRESSES && a < ADDRESSES
    ensures var r' := OnSet(r, k, address, notes, wild);
      && AllProper(r')
      && Flags(r', j, a) == if k == j && address == a then notes else Flags(r, j, a)
  {
    var ts := r.targets[address];
    assert ts in r.targets;
    assert Proper(ts);
    hide Proper, SetNotes, AsMap, NewMask, FlagsOf;
    SetNotesIsMapUpdate(ts, k, notes);
    FlagsAfterSet(ts, k, notes, j);
  }

  lemma {:induction false} ClearKeeps(r: Registry, k: nat, i: nat, wild: bv64, j: nat, a: nat)
    requires r.Sized() && AllProper(r) && a < ADDRESSES
    ensures var r' := ClearFrom(r, k, i, wild);
      && AllProper(r')
      && Flags(r', j, a) == if k == j && i <= a then 0 else Flags(r, j, a)
    decreases ADDRESSES - i
  {
    if i < ADDRESSES {
      SetKeeps(r, k, i, 0, wild, j, a);
      hide OnSet, AllProper, Flags;
      ClearKeeps(OnSet(r, k, i, 0, wild), k, i + 1, wild, j, a);
    }
  }

  /** What client j last asked for at address a; clearing reaches the addresses from 2 on. */
  function LastAsked(es: seq<Request>, j: nat, a: nat): bv64
    decreases |es|
  {
    if es == [] then NO_FLAGS
    else if Decides(es[|es| - 1], j, a) then Wanted(es[|es| - 1])
    else LastAsked(es[..|es| - 1], j, a)
  }

  predicate Decides(e: Request, j: nat, a: nat) {
    e.client == j && if e.SetFlags? then e.address == a else a >= 2
  }

  function Wanted(e: Request): bv64 { if e.SetFlags? then e.flags else NO_FLAGS }

  /** After any requests, each list holds each client at most once, with the non-zero flags that the
      client last asked for, and nothing else. */
  lemma {:induction false} ListsAreTheMap(es: seq<Request>, wild: bv64, j: nat, a: nat)
    requires Legal(es) && a < ADDRESSES
    ensures AllProper(After(es, wild)) && Flags(After(es, wild), j, a) == LastAsked(es, j, a)
    decreases |es|
  {
    if es != [] {
      var front, e := es[..|es| - 1], es[|es| - 1];
      assert forall x :: x in front ==> x in es;
      assert e in es;
      ListsAreTheMap(front, wild, j, a);
      hide AllProper, Flags, Next, Decides, Wanted;
      NextKeeps(After(front, wild), e, wild, j, a);
    } else {
      NobodyProper(j, a);
      hide AllProper, Flags, Next;
    }
  }

  lemma NobodyProper(j: nat, a: nat)
    requires a < ADDRESSES
    ensures AllProper(NOBODY) && Flags(NOBODY, j, a) == 0
  {}

  lemma NextKeeps(r: Registry, e: Request, wild: bv64, j: nat, a: nat)
    requires r.Sized() && AllProper(r) && (e.SetFlags? ==> e.address < ADDRESSES) && a < ADDRESSES
    ensures AllProper(Next(r, e, wild))
    ensures Flags(Next(r, e, wild), j, a) == if Decides(e, j, a) then Wanted(e) else Flags(r, j, a)
  {
    hide AllProper, Flags, OnSet, ClearFrom;
    if e.SetFlags? {
      SetKeeps(r, e.client, e.address, e.flags, wild, j, a);
    } else {
      ClearKeeps(r, e.client, 2, wild, j, a);
    }
  }

  lemma Departure(es: seq<Request>, wild: bv64, k: nat, a: nat)
    requires Legal(es) && a < ADDRESSES
    ensures Legal(es + [Clear(k)])
    ensures Flags(After(es + [Clear(k)], wild), k, a) == if a >= 2 then 0 else LastAsked(es, k, a)
  {
    var all := es + [Clear(k)];
    assert all[..|all| - 1] == es;
    hide After, Flags;
    ListsAreTheMap(all, wild, k, a);
  }

  predicate Forgotten(r: Registry, k: nat)
    requires r.Sized()
  {
    forall a :: 0 <= a < ADDRESSES ==> Flags(r, k, a) == 0
  }

  /** A client that goes away is cleared from every list, unless it asked for notes of address 0 or 1,
      which clearing does not visit. */
  lemma DepartureForgottenIff(es: seq<Request>, wild: bv64, k: nat)
    requires Legal(es)
    ensures Legal(es + [Clear(k)])
    ensures Forgotten(After(es + [Clear(k)], wild), k) <==> LastAsked(es, k, 0) == 0 && LastAsked(es, k, 1) == 0
  {
    hide LastAsked, Flags, After;
    Departure(es, wild, k, 0);
    Departure(es, wild, k, 1);
    var r := After(es + [Clear(k)], wild);
    if LastAsked(es, k, 0) == 0 && LastAsked(es, k, 1) == 0 {
      forall a: nat | a < ADDRESSES ensures Flags(r, k, a) == 0 {
        Departure(es, wild, k, a);
      }
      assert Forgotten(r, k);
    } else {
      assert Flags(r, k, 0) != 0 || Flags(r, k, 1) != 0;
    }
  }

  // ----- Dispatch -----

  /** A note numbered below 64 goes exactly once to each client whose last request for its source
      contains that bit, and to nobody else. */
  lemma DispatchReachesExactly(es: seq<Request>, wild: bv64, source: nat, note: nat, c: nat)
    requires Legal(es) && source < ADDRESSES && note < 64
    ensures Times(Dispatched(After(es, wild).targets[source], Shifted(note, wild)), c)
         == if Has(LastAsked(es, c, source), Bit(note)) then 1 else 0
  {
    ListsAreTheMap(es, wild, c, source);
    hide After, LastAsked, Has, Bit;
    assert After(es, wild).targets[source] in After(es, wild).targets;
    DispatchedTimes(After(es, wild).targets[source], Bit(note), c);
  }

  // ----- The client masks -----

  /** The bit for an address, tested the way it is set, says whether the client has flags there. */
  predicate Agrees(r: Registry, k: nat, a: nat, wild: bv64)
    requires r.Sized() && a < ADDRESSES
  {
    Has(WordFor(MaskOf(r, k), a), Shifted(Place(a), wild)) <==> Flags(r, k, a) != 0
  }

  predicate OwnBit(a: nat, wild: bv64) {
    a > 64 || (a < 64 && !Has(wild, Bit(a)))
  }

  lemma OtherBit(a: nat, b: nat, wild: bv64)
    requires a < ADDRESSES && b < ADDRESSES && a != b && (a > 64 <==> b > 64) && OwnBit(a, wild)
    ensures And(Shifted(Place(b), wild), Shifted(Place(a), wild)) == 0
  {
    if b != 64 {
      BitsOverlap(Place(b), Place(a));
    }
    hide Bit, And;
  }

  lemma MaskStep(m: Mask, b: nat, notes: bv64, wild: bv64, a: nat)
    requires a < ADDRESSES && b < ADDRESSES && OwnBit(a, wild)
    ensures var flag := Shifted(Place(a), wild);
      Has(WordFor(NewMask(m, b, notes, wild), a), flag)
      <==> if a == b then notes != 0 else Has(WordFor(m, a), flag)
  {
    var flag := Shifted(Place(a), wild);
    hide Bit, Has, Or, AndNot, OwnBit;
    if a == b {
      OwnBitNotZero(a, wild);
      SetOne(WordFor(m, a), flag);
    } else if (a > 64) == (b > 64) {
      OtherBit(a, b, wild);
      SetOther(WordFor(m, a), Shifted(Place(b), wild), flag);
    }
  }

  lemma OwnBitNotZero(a: nat, wild: bv64)
    requires a < ADDRESSES && OwnBit(a, wild)
    ensures Shifted(Place(a), wild) != 0
  {
    BitNotZero(Place(a));
    hide Bit, Has;
  }

  lemma SetAgrees(r: Registry, k: nat, address: nat, notes: bv64, wild: bv64, j: nat, a: nat)
    requires r.Sized() && AllProper(r) && address < ADDRESSES && a < ADDRESSES && OwnBit(a, wild)
    requires Agrees(r, j, a, wild)
    ensures Agrees(OnSet(r, k, address, notes, wild), j, a, wild)
  {
    SetKeeps(r, k, address, notes, wild, j, a);
    MaskStep(MaskOf(r, j), address, notes, wild, a);
    MaskAfterSet(r, k, address, notes, wild, j);
    hide OnSet, Has, Flags, AllProper, WordFor, NewMask, Shifted, OwnBit, MaskOf;
  }

  lemma MaskAfterSet(r: Registry, k: nat, address: nat, notes: bv64, wild: bv64, j: nat)
    requires r.Sized() && address < ADDRESSES
    ensures MaskOf(OnSet(r, k, address, notes, wild), j)
         == if k == j then NewMask(MaskOf(r, j), address, notes, wild) else MaskOf(r, j)
  {
    hide NewMask, SetNotes;
  }

  lemma {:induction false} ClearAgrees(r: Registry, k: nat, i: nat, wild: bv64, j: nat, a: nat)
    requires r.Sized() && AllProper(r) && a < ADDRESSES && OwnBit(a, wild) && Agrees(r, j, a, wild)
    ensures Agrees(ClearFrom(r, k, i, wild), j, a, wild)
    decreases ADDRESSES - i
  {
    if i < ADDRESSES {
      SetKeeps(r, k, i, 0, wild, j, a);
      SetAgrees(r, k, i, 0, wild, j, a);
      hide OnSet, AllProper, Agrees, OwnBit;
      ClearAgrees(OnSet(r, k, i, 0, wild), k, i + 1, wild, j, a);
    }
  }

  lemma {:induction false} RunAgrees(es: seq<Request>, wild: bv64, j: nat, a: nat)
    requires Legal(es) && a < ADDRESSES && OwnBit(a, wild)
    ensures Agrees(After(es, wild), j, a, wild)
    decreases |es|
  {
    if es == [] {
      hide OwnBit, Shifted, And;
      NothingHas(Shifted(Place(a), wild));
    } else {
      var front, e := es[..|es| - 1], es[|es| - 1];
      assert forall x :: x in front ==> x in es;
      assert e in es;
      ListsAreTheMap(front, wild, j, a);
      RunAgrees(front, wild, j, a);
      hide AllProper, Flags, OnSet, ClearFrom, Agrees, OwnBit;
      if e.SetFlags? {
        SetAgrees(After(front, wild), e.client, e.address, e.flags, wild, j, a);
      } else {
        ClearAgrees(After(front, wild), e.client, 2, wild, j, a);
      }
    }
  }

  ghost predicate AlwaysAgrees(a: nat, wild: bv64)
    requires a < ADDRESSES
  {
    forall es, k :: Legal(es) ==> Agrees(After(es, wild), k, a, wild)
  }

  lemma OneRequest(b: nat, wild: bv64) returns (es: seq<Request>)
    requires b < ADDRESSES
    ensures Legal(es) && After(es, wild) == OnSet(NOBODY, 0, b, 1, wild)
  {
    es := [SetFlags(0, b, 1)];
    hide OnSet;
    assert es[..0] == [];
    assert After([], wild) == NOBODY;
  }

  lemma OneMask(b: nat, wild: bv64, a: nat)
    requires a <= 64 && b <= 64
    ensures var r := OnSet(NOBODY, 0, b, 1, wild);
      && WordFor(MaskOf(r, 0), a) == Shifted(Place(b), wild)
      && Flags(r, 0, a) == if a == b then 1 else 0
  {
    assert AllProper(NOBODY);
    SetKeeps(NOBODY, 0, b, 1, wild, 0, a);
    MaskAfterSet(NOBODY, 0, b, 1, wild, 0);
    OrNothing(Shifted(Place(b), wild));
    hide OnSet, Shifted, Or, AllProper;
  }

  lemma OrNothing(x: bv64)
    ensures Or(0, x) == x
  {}

  lemma AndSame(x: bv64, y: bv64)
    ensures And(x, y) == And(y, x) && And(x, 0) == 0
  {}

  /** Where the shift for 64 lands on another address's bit, or on none, the two disagree. */
  lemma MaskDisagrees(a: nat, wild: bv64)
    requires a <= 64 && !OwnBit(a, wild)
    ensures !AlwaysAgrees(a, wild)
  {
    hide Bit, And;
    AndSame(wild, Bit(a));
    AndSame(wild, wild);
    var b := 64;
    if a == 64 && wild != 0 {
      b := SomeBit(wild);
      AndSame(wild, Bit(b));
    }
    OneMask(b, wild, a);
    var es := OneRequest(b, wild);
    hide OnSet, MaskOf, Flags;
    assert !Agrees(After(es, wild), 0, a, wild);
  }

  /** The mask agrees with the lists in every run exactly for the addresses above 64 and those below it
      whose bit the out-of-range shift for address 64 leaves alone. */
  lemma MaskAgreesIff(a: nat, wild: bv64)
    requires a < ADDRESSES
    ensures AlwaysAgrees(a, wild) <==> a > 64 || (a < 64 && !Has(wild, Bit(a)))
  {
    if OwnBit(a, wild) {
      hide Agrees, OwnBit;
      forall es, k | Legal(es) ensures Agrees(After(es, wild), k, a, wild) {
        RunAgrees(es, wild, k, a);
      }
    } else {
      MaskDisagrees(a, wild);
      hide AlwaysAgrees;
    }
  }
}
