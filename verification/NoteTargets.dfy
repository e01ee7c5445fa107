/** The lists of note targets (sricd/device.c): per device, who wants which notes. */
module NoteTargets {
  import opened Bytes
  import opened FlagWord

  datatype Target<C> = Target(who: C, flags: bv64)

  function IndexOf<C(==)>(ts: seq<Target<C>>, c: C): (i: nat)
    ensures i <= |ts|
    ensures i < |ts| ==> ts[i].who == c
    ensures forall j :: 0 <= j < i ==> ts[j].who != c
  {
    if ts == [] || ts[0].who == c then 0 else 1 + IndexOf(ts[1..], c)
  }

  /** device_drop_client_notes: take the first entry of c out. */
  function Drop<C(==)>(ts: seq<Target<C>>, c: C): seq<Target<C>> {
    var i := IndexOf(ts, c);
    if i < |ts| then ts[..i] + ts[i + 1..] else ts
  }

  /** device_update_client_notes: change the first entry of c, or append one. */
  function Update<C(==)>(ts: seq<Target<C>>, c: C, flags: bv64): seq<Target<C>> {
    var i := IndexOf(ts, c);
    if i < |ts| then ts[i := Target(c, flags)] else ts + [Target(c, flags)]
  }

  function SetNotes<C(==)>(ts: seq<Target<C>>, c: C, flags: bv64): seq<Target<C>> {
    if flags != 0 then Update(ts, c, flags) else Drop(ts, c)
  }

  /** device_clear_client_notes, for all the lists. */
  function AllDropped<C(==)>(targets: seq<seq<Target<C>>>, c: C): (r: seq<seq<Target<C>>>)
    ensures |r| == |targets|
    ensures forall a :: 0 <= a < |r| ==> r[a] == if a >= 2 then Drop(targets[a], c) else targets[a]
  {
    seq(|targets|, a requires 0 <= a < |targets| => if a >= 2 then Drop(targets[a], c) else targets[a])
  }

  /** No client twice, and none without a flag. */
  predicate Proper<C(==)>(ts: seq<Target<C>>) {
    && (forall i, j :: 0 <= i < j < |ts| ==> ts[i].who != ts[j].who)
    && (forall i :: 0 <= i < |ts| ==> ts[i].flags != 0)
  }

  /** What a list means: the flags of each client that has any. */
  function AsMap<C(==)>(ts: seq<Target<C>>): map<C, bv64> {
    if ts == [] then map[] else AsMap(ts[1..])[ts[0].who := ts[0].flags]
  }

  function FlagsOf<C(==)>(ts: seq<Target<C>>, c: C): bv64 {
    if c in AsMap(ts) then AsMap(ts)[c] else 0
  }

  lemma {:induction false} MapHas<C>(ts: seq<Target<C>>, c: C)
    ensures c in AsMap(ts) <==> exists i :: 0 <= i < |ts| && ts[i].who == c
  {
    if ts != [] {
      MapHas(ts[1..], c);
      if ts[0].who != c {
        if i :| 0 <= i < |ts| && ts[i].who == c {
          assert ts[1..][i - 1].who == c;
        }
      } else {
        assert c in AsMap(ts);
      }
    }
  }

  lemma ProperTail<C>(ts: seq<Target<C>>)
    requires Proper(ts) && ts != []
    ensures Proper(ts[1..]) && ts[0].who !in AsMap(ts[1..])
  {
    MapHas(ts[1..], ts[0].who);
  }

  lemma {:induction false} MapAt<C>(ts: seq<Target<C>>, i: nat)
    requires Proper(ts) && i < |ts|
    ensures ts[i].who in AsMap(ts) && AsMap(ts)[ts[i].who] == ts[i].flags
  {
    ProperTail(ts);
    if i > 0 {
      assert ts[1..][i - 1] == ts[i];
      MapAt(ts[1..], i - 1);
    }
  }

  /** A list that is proper shows its map's entries and nothing else. */
  lemma MapEntry<C>(ts: seq<Target<C>>, c: C)
    requires Proper(ts)
    ensures var i := IndexOf(ts, c);
      && (c in AsMap(ts) <==> i < |ts|)
      && (c in AsMap(ts) ==> AsMap(ts)[c] == ts[i].flags && ts[i].flags != 0)
  {
    var i := IndexOf(ts, c);
    MapHas(ts, c);
    if i < |ts| {
      MapAt(ts, i);
    }
  }

  // ----- Each operation is the map operation -----

  lemma SetProper<C>(ts: seq<Target<C>>, c: C, flags: bv64)
    requires Proper(ts)
    ensures Proper(SetNotes(ts, c, flags))
  {}

  lemma MapCons<C>(t: Target<C>, ts: seq<Target<C>>)
    ensures AsMap([t] + ts) == AsMap(ts)[t.who := t.flags]
  {
    assert ([t] + ts)[1..] == ts;
  }

  lemma CutTail<T>(s: seq<T>, i: nat)
    requires i + 1 < |s|
    ensures s[..i + 1] + s[i + 2..] == [s[0]] + (s[1..][..i] + s[1..][i + 1..])
  {}

  lemma DropCons<C>(ts: seq<Target<C>>, c: C)
    requires ts != []
    ensures Drop(ts, c) == if ts[0].who == c then ts[1..] else [ts[0]] + Drop(ts[1..], c)
  {
    if ts[0].who != c {
      var i := IndexOf(ts[1..], c);
      assert IndexOf(ts, c) == i + 1;
      hide IndexOf;
      if i + 1 < |ts| {
        CutTail(ts, i);
      } else {
        HeadTail(ts);
      }
    }
  }

  lemma MapMinus<C>(m: map<C, bv64>, k: C, v: bv64, c: C)
    requires k !in m
    ensures m[k := v] - {c} == if k == c then m else (m - {c})[k := v]
  {}

  lemma {:induction false} DropMap<C>(ts: seq<Target<C>>, c: C)
    requires Proper(ts)
    ensures AsMap(Drop(ts, c)) == AsMap(ts) - {c}
  {
    if ts != [] {
      ProperTail(ts);
      DropCons(ts, c);
      assert AsMap(ts) == AsMap(ts[1..])[ts[0].who := ts[0].flags];
      hide Drop, Proper, AsMap;
      MapMinus(AsMap(ts[1..]), ts[0].who, ts[0].flags, c);
      if ts[0].who != c {
        MapCons(ts[0], Drop(ts[1..], c));
        DropMap(ts[1..], c);
      }
    }
  }

  lemma UpdateCons<C>(ts: seq<Target<C>>, c: C, flags: bv64)
    requires ts != []
    ensures Update(ts, c, flags)
         == if ts[0].who == c then [Target(c, flags)] + ts[1..] else [ts[0]] + Update(ts[1..], c, flags)
  {
    if ts[0].who != c {
      assert IndexOf(ts, c) == 1 + IndexOf(ts[1..], c);
    }
  }

  lemma {:induction false} UpdateMap<C>(ts: seq<Target<C>>, c: C, flags: bv64)
    requires Proper(ts)
    ensures AsMap(Update(ts, c, flags)) == AsMap(ts)[c := flags]
  {
    if ts == [] {
      MapCons(Target(c, flags), []);
      assert [] + [Target(c, flags)] == [Target(c, flags)] + [];
    } else {
      ProperTail(ts);
      UpdateCons(ts, c, flags);
      hide Update, Proper;
      MapCons(Target(c, flags), ts[1..]);
      if ts[0].who != c {
        MapCons(ts[0], Update(ts[1..], c, flags));
        UpdateMap(ts[1..], c, flags);
      }
    }
  }

  /** Setting notes is updating a plain map from clients to non-zero flags. */
  lemma SetNotesIsMapUpdate<C>(ts: seq<Target<C>>, c: C, flags: bv64)
    requires Proper(ts)
    ensures Proper(SetNotes(ts, c, flags))
    ensures AsMap(SetNotes(ts, c, flags)) == if flags != 0 then AsMap(ts)[c := flags] else AsMap(ts) - {c}
  {
    SetProper(ts, c, flags);
    DropMap(ts, c);
    UpdateMap(ts, c, flags);
  }

  lemma FlagsAfterSet<C>(ts: seq<Target<C>>, c: C, flags: bv64, d: C)
    requires Proper(ts)
    ensures FlagsOf(SetNotes(ts, c, flags), d) == if c == d then flags else FlagsOf(ts, d)
  {
    SetNotesIsMapUpdate(ts, c, flags);
    hide SetNotes, Proper, AsMap;
  }

  // ----- Dispatch -----

  /** The clients that device_dispatch_note pushes a note to, in list order. */
  function Dispatched<C(==)>(ts: seq<Target<C>>, flag: bv64): seq<C> {
    if ts == [] then [] else (if Has(ts[0].flags, flag) then [ts[0].who] else []) + Dispatched(ts[1..], flag)
  }

  /** In a proper list, the clients that get a note are those whose entry has the bit. */
  lemma {:induction false} DispatchedHas<C>(ts: seq<Target<C>>, flag: bv64, i: nat)
    requires Proper(ts) && i < |ts|
    ensures ts[i].who in Dispatched(ts, flag) <==> Has(ts[i].flags, flag)
  {
    hide Has;
    ProperTail(ts);
    if i > 0 {
      assert ts[1..][i - 1] == ts[i];
      hide Proper;
      DispatchedHas(ts[1..], flag, i - 1);
    } else if ts[0].who in Dispatched(ts[1..], flag) {
      NotDispatched(ts[1..], flag, ts[0].who);
    }
  }

  predicate Listed<C(==)>(ts: seq<Target<C>>, c: C) {
    exists t :: t in ts && t.who == c
  }

  lemma {:induction false} DispatchedListed<C>(ts: seq<Target<C>>, flag: bv64, c: C)
    requires c in Dispatched(ts, flag)
    ensures Listed(ts, c)
  {
    hide Has;
    if ts[0].who == c {
      assert ts[0] in ts;
    } else {
      DispatchedListed(ts[1..], flag, c);
      var t :| t in ts[1..] && t.who == c;
      assert t in ts;
    }
  }

  lemma {:induction false} NotDispatched<C>(ts: seq<Target<C>>, flag: bv64, c: C)
    requires c in Dispatched(ts, flag)
    ensures c in AsMap(ts)
  {
    hide Has;
    if ts != [] && ts[0].who != c {
      NotDispatched(ts[1..], flag, c);
    }
  }

  function Times<C(==)>(cs: seq<C>, c: C): nat {
    if cs == [] then 0 else (if cs[0] == c then 1 else 0) + Times(cs[1..], c)
  }

  lemma TimesCons<C>(x: C, cs: seq<C>, c: C)
    ensures Times([x] + cs, c) == (if x == c then 1 else 0) + Times(cs, c)
  {
    assert ([x] + cs)[1..] == cs;
  }

  lemma NothingHas(flag: bv64)
    ensures !Has(0, flag)
  {}

  /** Each client whose flags have the bit gets the note exactly once, and nobody else gets it. */
  lemma {:induction false} DispatchedTimes<C>(ts: seq<Target<C>>, flag: bv64, c: C)
    requires Proper(ts)
    ensures Times(Dispatched(ts, flag), c) == if Has(FlagsOf(ts, c), flag) then 1 else 0
  {
    hide And;
    NothingHas(flag);
    if ts != [] {
      ProperTail(ts);
      hide Proper;
      DispatchedTimes(ts[1..], flag, c);
      TimesCons(ts[0].who, Dispatched(ts[1..], flag), c);
      assert [] + Dispatched(ts[1..], flag) == Dispatched(ts[1..], flag);
    }
  }
}
