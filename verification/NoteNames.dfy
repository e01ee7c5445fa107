/** The daemon's lists of note targets hold clients; the registry of requests knows them by number. Renaming the one
    into the other commutes with everything that is done to the lists (sricd/device.c). */
module NoteNames {
  import opened Bytes
  import opened FlagWord
  import opened NoteTargets
  import opened NoteRegistry

  /** No two have the same number. */
  predicate Injective<C>(names: map<C, nat>) {
    forall c, d :: c in names && d in names && names[c] == names[d] ==> c == d
  }

  predicate AllNamed<C>(ts: seq<Target<C>>, names: map<C, nat>) {
    forall t :: t in ts ==> t.who in names
  }

  function RenamedOne<C>(t: Target<C>, names: map<C, nat>): Target<nat>
    requires t.who in names
  {
    Target(names[t.who], t.flags)
  }

  function Renamed<C>(ts: seq<Target<C>>, names: map<C, nat>): seq<Target<nat>>
    requires AllNamed(ts, names)
  {
    if ts == [] then [] else [RenamedOne(ts[0], names)] + Renamed(ts[1..], names)
  }

  lemma RenamedCons<C>(t: Target<C>, ts: seq<Target<C>>, names: map<C, nat>)
    requires t.who in names && AllNamed(ts, names)
    ensures AllNamed([t] + ts, names) && Renamed([t] + ts, names) == [RenamedOne(t, names)] + Renamed(ts, names)
  {
    assert ([t] + ts)[1..] == ts;
  }

  lemma NamedTail<C>(ts: seq<Target<C>>, names: map<C, nat>)
    requires AllNamed(ts, names) && ts != []
    ensures ts[0].who in names && AllNamed(ts[1..], names)
    ensures Renamed(ts, names)[0] == RenamedOne(ts[0], names) && Renamed(ts, names)[1..] == Renamed(ts[1..], names)
  {
    assert ts[0] in ts;
    assert forall t :: t in ts[1..] ==> t in ts;
  }

  lemma {:induction false} RenamedDrop<C>(ts: seq<Target<C>>, names: map<C, nat>, c: C)
    requires Injective(names) && AllNamed(ts, names) && c in names
    ensures AllNamed(Drop(ts, c), names) && Renamed(Drop(ts, c), names) == Drop(Renamed(ts, names), names[c])
    decreases |ts|
  {
    if ts != [] {
      NamedTail(ts, names);
      DropCons(ts, c);
      DropCons(Renamed(ts, names), names[c]);
      assert ts[0].who == c <==> names[ts[0].who] == names[c];
      hide Drop, Injective, AllNamed, Renamed;
      if ts[0].who != c {
        RenamedDrop(ts[1..], names, c);
        RenamedCons(ts[0], Drop(ts[1..], c), names);
      }
    }
  }

  lemma {:induction false} RenamedUpdate<C>(ts: seq<Target<C>>, names: map<C, nat>, c: C, flags: bv64)
    requires Injective(names) && AllNamed(ts, names) && c in names
    ensures AllNamed(Update(ts, c, flags), names)
    ensures Renamed(Update(ts, c, flags), names) == Update(Renamed(ts, names), names[c], flags)
    decreases |ts|
  {
    if ts == [] {
      RenamedCons(Target(c, flags), [], names);
      assert [] + [Target(c, flags)] == [Target(c, flags)] + [];
    } else {
      NamedTail(ts, names);
      UpdateCons(ts, c, flags);
      UpdateCons(Renamed(ts, names), names[c], flags);
      assert ts[0].who == c <==> names[ts[0].who] == names[c];
      hide Update, Injective, AllNamed, Renamed;
      if ts[0].who == c {
        RenamedCons(Target(c, flags), ts[1..], names);
      } else {
        RenamedUpdate(ts[1..], names, c, flags);
        RenamedCons(ts[0], Update(ts[1..], c, flags), names);
      }
    }
  }

  lemma RenamedSet<C>(ts: seq<Target<C>>, names: map<C, nat>, c: C, flags: bv64)
    requires Injective(names) && AllNamed(ts, names) && c in names
    ensures AllNamed(SetNotes(ts, c, flags), names)
    ensures Renamed(SetNotes(ts, c, flags), names) == SetNotes(Renamed(ts, names), names[c], flags)
  {
    hide Drop, Update, Injective, AllNamed, Renamed;
    RenamedUpdate(ts, names, c, flags);
    RenamedDrop(ts, names, c);
  }

  lemma {:induction false} RenamedDispatch<C>(ts: seq<Target<C>>, names: map<C, nat>, flag: bv64, c: C)
    requires Injective(names) && AllNamed(ts, names) && c in names
    ensures c in Dispatched(ts, flag) <==> names[c] in Dispatched(Renamed(ts, names), flag)
    decreases |ts|
  {
    hide Has;
    if ts != [] {
      assert ts[0] in ts;
      assert forall t :: t in ts[1..] ==> t in ts;
      assert Renamed(ts, names)[1..] == Renamed(ts[1..], names);
      RenamedDispatch(ts[1..], names, flag, c);
    }
  }

  lemma {:induction false} MoreNames<C>(ts: seq<Target<C>>, names: map<C, nat>, c: C, k: nat)
    requires AllNamed(ts, names) && c !in names
    ensures AllNamed(ts, names[c := k]) && Renamed(ts, names[c := k]) == Renamed(ts, names)
    decreases |ts|
  {
    if ts != [] {
      NamedTail(ts, names);
      MoreNames(ts[1..], names, c, k);
    }
  }

  // ----- All the lists -----

  /** One list is, renamed, that one. */
  predicate ShowsOne<C>(ts: seq<Target<C>>, names: map<C, nat>, list: seq<Target<nat>>) {
    AllNamed(ts, names) && Renamed(ts, names) == list
  }

  /** The lists are those of the registry after these requests. */
  predicate Shows<C>(targets: seq<seq<Target<C>>>, names: map<C, nat>, requests: seq<Request>, wild: bv64) {
    && |targets| == ADDRESSES && Legal(requests)
    && forall a :: 0 <= a < ADDRESSES ==> ShowsOne(targets[a], names, After(requests, wild).targets[a])
  }

  lemma ShowsNobody<C>(targets: seq<seq<Target<C>>>, wild: bv64)
    requires |targets| == ADDRESSES && forall a :: 0 <= a < ADDRESSES ==> targets[a] == []
    ensures Shows(targets, map[], [], wild)
  {}

  lemma AfterOne(requests: seq<Request>, e: Request, wild: bv64)
    requires Legal(requests) && (e.SetFlags? ==> e.address < ADDRESSES)
    ensures Legal(requests + [e]) && After(requests + [e], wild) == Next(After(requests, wild), e, wild)
  {
    hide Next;
    assert (requests + [e])[..|requests|] == requests;
  }

  lemma ShowsSet<C>(targets: seq<seq<Target<C>>>, names: map<C, nat>, requests: seq<Request>, wild: bv64, c: C,
                    address: nat, flags: bv64)
    requires Shows(targets, names, requests, wild) && Injective(names) && c in names && address < ADDRESSES
    ensures Shows(targets[address := SetNotes(targets[address], c, flags)], names,
                  requests + [SetFlags(names[c], address, flags)], wild)
  {
    AfterOne(requests, SetFlags(names[c], address, flags), wild);
    RenamedSet(targets[address], names, c, flags);
    hide After, SetNotes, Injective, AllNamed, Renamed, NewMask;
  }

  lemma ClearedOne<C>(ts: seq<Target<C>>, names: map<C, nat>, list: seq<Target<nat>>, c: C)
    requires Injective(names) && c in names && ShowsOne(ts, names, list)
    ensures ShowsOne(Drop(ts, c), names, Drop(list, names[c]))
  {
    RenamedDrop(ts, names, c);
    hide Drop, Injective;
  }

  lemma ClearedAll<C>(targets: seq<seq<Target<C>>>, names: map<C, nat>, lists: seq<seq<Target<nat>>>, c: C)
    requires Injective(names) && c in names && |targets| == |lists|
    requires forall a :: 0 <= a < |lists| ==> ShowsOne(targets[a], names, lists[a])
    ensures forall a :: 0 <= a < |lists| ==> ShowsOne(AllDropped(targets, c)[a], names, AllDropped(lists, names[c])[a])
  {
    hide Injective, ShowsOne, Drop;
    forall a | 0 <= a < |lists| ensures ShowsOne(AllDropped(targets, c)[a], names, AllDropped(lists, names[c])[a]) {
      ClearedOne(targets[a], names, lists[a], c);
    }
  }

  lemma ShowsClear<C>(targets: seq<seq<Target<C>>>, names: map<C, nat>, requests: seq<Request>, wild: bv64, c: C)
    requires Shows(targets, names, requests, wild) && Injective(names) && c in names
    ensures Shows(AllDropped(targets, c), names, requests + [Clear(names[c])], wild)
  {
    var r, k := After(requests, wild), names[c];
    AfterOne(requests, Clear(k), wild);
    ClearIsRequest(r, k, wild);
    hide After, Injective, ShowsOne, Next, Drop;
    ClearedAll(targets, names, r.targets, c);
  }

  lemma ShowsMore<C>(targets: seq<seq<Target<C>>>, names: map<C, nat>, requests: seq<Request>, wild: bv64, c: C, k: nat)
    requires Shows(targets, names, requests, wild) && c !in names && Injective(names)
    requires forall d :: d in names ==> names[d] != k
    ensures Shows(targets, names[c := k], requests, wild) && Injective(names[c := k])
  {
    hide After, AllNamed, Renamed;
    forall a | 0 <= a < ADDRESSES
      ensures AllNamed(targets[a], names[c := k]) && Renamed(targets[a], names[c := k]) == Renamed(targets[a], names)
    {
      MoreNames(targets[a], names, c, k);
    }
  }

  /** In the registry's own lists. */
  lemma NumberReached(requests: seq<Request>, wild: bv64, k: nat, source: nat, note: nat)
    requires Legal(requests) && source < ADDRESSES && note < 64
    ensures k in Dispatched(After(requests, wild).targets[source], Bit(note))
       <==> Has(LastAsked(requests, k, source), Bit(note))
  {
    DispatchReachesExactly(requests, wild, source, note, k);
    hide After, LastAsked, Has, Bit, Dispatched, Times;
    InTimes(Dispatched(After(requests, wild).targets[source], Bit(note)), k);
  }

  /** A note below 64 goes to exactly those clients whose last request for its source has the bit. */
  lemma DispatchIsLastAsked<C>(targets: seq<seq<Target<C>>>, names: map<C, nat>, requests: seq<Request>, wild: bv64,
                               c: C, source: nat, note: nat)
    requires Shows(targets, names, requests, wild) && Injective(names) && c in names && source < ADDRESSES && note < 64
    ensures c in Dispatched(targets[source], Bit(note)) <==> Has(LastAsked(requests, names[c], source), Bit(note))
  {
    assert ShowsOne(targets[source], names, After(requests, wild).targets[source]);
    hide After, LastAsked, Injective, Renamed, AllNamed, Bit, Has, Shows, Dispatched;
    RenamedDispatch(targets[source], names, Bit(note), c);
    NumberReached(requests, wild, names[c], source, note);
  }

  lemma {:induction false} InTimes<T>(s: seq<T>, x: T)
    ensures x in s <==> Times(s, x) > 0
  {
    if s != [] {
      InTimes(s[1..], x);
      HeadTail(s);
    }
  }
}
