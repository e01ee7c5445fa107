/** Conservation and progress of the token. */
module Token {
  import opened Bytes
  import opened BusModel

  function One(b: bool): nat { if b then 1 else 0 }

  function Held(ds: seq<Device>): nat {
    if ds == [] then 0 else One(ds[0].has) + Held(ds[1..])
  }

  /** The tokens in the system: one per holder. */
  function Tokens(b: Bus): nat { One(b.gw.has) + Held(b.devices) }

  lemma {:induction false} RotateConserves(ds: seq<Device>, onWire: bool)
    ensures var (ds', out) := Rotate(ds, onWire);
      && Held(ds') + One(out) <= Held(ds) + One(onWire)
      && (Held(ds) + One(onWire) <= 1 ==> Held(ds') + One(out) == Held(ds) + One(onWire))
    decreases |ds|
  {
    if ds != [] {
      var (d, w) := Juggle(ds[0], onWire);
      RotateConserves(ds[1..], w);
      var (rest, out) := Rotate(ds[1..], w);
      assert ([d] + rest)[1..] == rest;
    }
  }

  /** Advancing never makes tokens, and loses none when there is at most one. */
  lemma AdvanceConserves(b: Bus)
    ensures Tokens(Advance(b)) <= Tokens(b)
    ensures Tokens(b) <= 1 ==> Tokens(Advance(b)) == Tokens(b)
  {
    hide Held, Rotate;
    RotateConserves(b.devices, b.gw.has);
  }

  lemma {:induction false} AdvanceTimesConserves(b: Bus, n: nat)
    ensures Tokens(AdvanceTimes(b, n)) <= Tokens(b)
    ensures Tokens(b) <= 1 ==> Tokens(AdvanceTimes(b, n)) == Tokens(b)
    decreases n
  {
    hide Tokens, Advance;
    if n > 0 {
      AdvanceConserves(b);
      AdvanceTimesConserves(Advance(b), n - 1);
    }
  }

  // ----- Where a single token goes -----

  /** The devices, with the token at index p (nowhere if p is out of range). */
  function Place(ds: seq<Device>, p: nat): (r: seq<Device>)
    ensures |r| == |ds|
    ensures forall i :: 0 <= i < |ds| ==> r[i] == ds[i].(has := i == p)
  {
    seq(|ds|, i requires 0 <= i < |ds| => ds[i].(has := i == p))
  }

  /** The bus with its only token at place p; place |devices| is the gateway. */
  function At(b: Bus, p: nat): Bus {
    Bus(b.gw.(has := p == |b.devices|), Place(b.devices, p))
  }

  /** Whether the holder at place p keeps the token. */
  predicate KeepsAt(b: Bus, p: nat)
    requires p <= |b.devices|
  {
    if p == |b.devices| then b.gw.keep else b.devices[p].keep
  }

  /** The first place from p on that keeps the token, or just past the ring if none does. */
  function Stop(b: Bus, p: nat): (q: nat)
    requires p <= |b.devices|
    ensures p <= q <= |b.devices|
    ensures forall i :: p <= i < q ==> !KeepsAt(b, i)
    ensures q < |b.devices| ==> KeepsAt(b, q)
    decreases |b.devices| - p
  {
    if p == |b.devices| || KeepsAt(b, p) then p else Stop(b, p + 1)
  }

  lemma PlaceTail(ds: seq<Device>, p: nat)
    requires ds != []
    ensures Place(ds, p)[1..] == Place(ds[1..], if p == 0 then |ds| else p - 1)
    ensures Place(ds, p)[0] == ds[0].(has := p == 0)
  {}

  lemma PlaceCons(ds: seq<Device>, p: nat)
    requires ds != []
    ensures Place(ds, p) == [ds[0].(has := p == 0)] + Place(ds[1..], if p == 0 then |ds| else p - 1)
  {}

  lemma PlaceNowhere(ds: seq<Device>, p: nat, q: nat)
    requires p >= |ds| && q >= |ds|
    ensures Place(ds, p) == Place(ds, q)
  {}

  /** No token anywhere: one coming in on the wire stops at the first device. */
  lemma {:induction false} RotateEmpty(ds: seq<Device>, onWire: bool)
    ensures Rotate(Place(ds, |ds|), onWire) ==
      if ds == [] || !onWire then (Place(ds, |ds|), onWire) else (Place(ds, 0), false)
    decreases |ds|
  {
    if ds != [] {
      PlaceTail(ds, |ds|);
      PlaceCons(ds, |ds|);
      PlaceCons(ds, 0);
      PlaceNowhere(ds[1..], |ds| - 1, |ds|);
      RotateEmpty(ds[1..], false);
      hide Place;
    }
  }

  /** A device that holds the only token keeps it or hands it to the next place. */
  lemma {:induction false} RotatePlace(ds: seq<Device>, p: nat)
    requires p < |ds|
    ensures Rotate(Place(ds, p), false) ==
      if ds[p].keep then (Place(ds, p), false)
      else (Place(ds, p + 1), p + 1 == |ds|)
    decreases |ds|
  {
    PlaceTail(ds, p);
    PlaceCons(ds, p);
    PlaceCons(ds, p + 1);
    var rest := ds[1..];
    if p == 0 {
      PlaceNowhere(rest, |ds|, |rest|);
      RotateEmpty(rest, !ds[0].keep);
    } else {
      RotatePlace(rest, p - 1);
    }
    hide Place;
  }

  function NextPlace(b: Bus, p: nat): nat
    requires p <= |b.devices|
  {
    if KeepsAt(b, p) then p else if p == |b.devices| then 0 else p + 1
  }

  lemma AdvanceAt(b: Bus, p: nat)
    requires p <= |b.devices|
    ensures Advance(At(b, p)) == At(b, NextPlace(b, p))
  {
    hide Rotate, Place;
    if p == |b.devices| {
      RotateEmpty(b.devices, true);
    } else {
      RotatePlace(b.devices, p);
    }
  }

  /** With the gateway keeping the token, the only token moves on to the first place that keeps it,
      within as many calls as there are places in between, and then stays. */
  lemma {:induction false} ReachesStop(b: Bus, p: nat, n: nat)
    requires p <= |b.devices| && b.gw.keep && n >= Stop(b, p) - p
    ensures AdvanceTimes(At(b, p), n) == At(b, Stop(b, p))
    decreases n
  {
    hide At, Advance;
    if n > 0 {
      AdvanceAt(b, p);
      if KeepsAt(b, p) {
        ReachesStop(b, p, n - 1);
      } else {
        ReachesStop(b, p + 1, n - 1);
      }
    }
  }

  lemma {:induction false} HeldPlace(ds: seq<Device>, p: nat)
    ensures Held(Place(ds, p)) == One(p < |ds|)
    decreases |ds|
  {
    if ds != [] {
      PlaceTail(ds, p);
      HeldPlace(ds[1..], if p == 0 then |ds| else p - 1);
      hide Place;
    }
  }

  lemma OneToken(b: Bus, p: nat)
    requires p <= |b.devices|
    ensures Tokens(At(b, p)) == 1
  {
    HeldPlace(b.devices, p);
    hide Held, Place;
  }

  lemma {:induction false} WhereHeld(ds: seq<Device>) returns (p: nat)
    requires Held(ds) <= 1
    ensures ds == Place(ds, p) && p <= |ds| && (p < |ds| <==> Held(ds) == 1)
    decreases |ds|
  {
    if ds == [] {
      p := 0;
    } else {
      var q := WhereHeld(ds[1..]);
      p := if ds[0].has then 0 else q + 1;
      if ds[0].has {
        PlaceNowhere(ds[1..], |ds|, q);
      }
      PlaceCons(ds, p);
      assert ds[0] == ds[0].(has := p == 0);
      HeadTail(ds);
    }
  }

  /** A single token that the gateway keeps when it gets it: within one call more than there are devices
      it is at the first place, from where it was, that keeps it; and there it stays. */
  lemma SettlesInOneRound(b: Bus, n: nat) returns (p: nat)
    requires Tokens(b) == 1 && b.gw.keep && n >= |b.devices| + 1
    ensures p <= |b.devices| && b == At(b, p)
    ensures var b' := AdvanceTimes(b, n);
      && b' == At(b, Stop(b, p)) && KeepsAt(b, Stop(b, p))
      && Advance(b') == b' && Tokens(b') == 1
  {
    hide Place;
    p := WhereHeld(b.devices);
    assert b == At(b, p);
    ReachesStop(b, p, n);
    AdvanceAt(b, Stop(b, p));
    OneToken(b, Stop(b, p));
  }
}
