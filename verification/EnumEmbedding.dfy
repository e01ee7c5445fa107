/** The bus that answers everything is one of the runs of the bus that may lose anything. */
module EnumEmbedding {
  import opened Bytes
  import opened Encoding
  import opened EnumFsm
  import opened BusModel
  import C = EnumCompletes
  import L = EnumLossy

  function AsLossy(s: C.System): L.Lossy {
    L.Lossy(s.e, s.queue, None, s.bus, [])
  }

  /** Each frame is loaded, gets through once, and its one answer arrives before anything else happens. */
  function NothingLost(extras: seq<nat>): seq<L.Event> {
    if extras == [] then [] else [L.Load, L.Arrives(extras[0]), L.AckArrives] + NothingLost(extras[1..])
  }

  lemma RoundInside(s: C.System, extra: nat)
    requires C.Answered(s)
    ensures var s1 := AsLossy(s);
      && L.Possible(s1, L.Load)
      && var s2 := L.Step(s1, L.Load);
      && WellFormed(s2.e) && L.Possible(s2, L.Arrives(extra))
      && var s3 := L.Step(s2, L.Arrives(extra));
      && WellFormed(s3.e) && L.Possible(s3, L.AckArrives)
      && L.Step(s3, L.AckArrives) == AsLossy(C.Round(s, extra))
  {
    hide OnReply, Exchange, WellFormed, Carriable;
    ExchangeAnswers(s.bus, s.queue[0], extra);
    var out := Exchange(s.bus, s.queue[0], extra).1;
    assert [] + out == out && out[1..] == [];
  }

  lemma ExchangeAnswers(b: Bus, m: Message, extra: nat)
    requires Carriable(m)
    ensures Exchange(b, m, extra).1 == Deliver(b, m).1
  {
    hide Deliver, AdvanceTimes;
  }

  lemma ThreeEvents(s: L.Lossy, a: L.Event, b: L.Event, c: L.Event, rest: seq<L.Event>)
    requires WellFormed(s.e) && L.Possible(s, a)
    requires var s2 := L.Step(s, a);
      && WellFormed(s2.e) && L.Possible(s2, b)
      && var s3 := L.Step(s2, b);
      && WellFormed(s3.e) && L.Possible(s3, c)
      && var s4 := L.Step(s3, c);
      WellFormed(s4.e) && L.LegalRun(s4, rest)
    ensures var s4 := L.Step(L.Step(L.Step(s, a), b), c);
      L.LegalRun(s, [a, b, c] + rest) && L.After(s, [a, b, c] + rest) == L.After(s4, rest)
  {
    hide L.Step, L.Possible, WellFormed;
    var s2 := L.Step(s, a);
    var s3 := L.Step(s2, b);
    FirstEvent(s3, c, rest);
    FirstEvent(s2, b, [c] + rest);
    FirstEvent(s, a, [b] + ([c] + rest));
    assert [a, b, c] + rest == [a] + ([b] + ([c] + rest));
  }

  lemma FirstEvent(s: L.Lossy, a: L.Event, rest: seq<L.Event>)
    requires WellFormed(s.e) && L.Possible(s, a) && WellFormed(L.Step(s, a).e) && L.LegalRun(L.Step(s, a), rest)
    ensures L.LegalRun(s, [a] + rest) && L.After(s, [a] + rest) == L.After(L.Step(s, a), rest)
  {
    hide L.Step, L.Possible, WellFormed;
    assert ([a] + rest)[1..] == rest;
  }

  /** Any number of answered rounds is such a run, to the same state. */
  lemma {:induction false} RoundsInside(s: C.System, extras: seq<nat>)
    requires WellFormed(s.e) && C.Rounds(s, extras).Some?
    ensures L.LegalRun(AsLossy(s), NothingLost(extras))
    ensures L.After(AsLossy(s), NothingLost(extras)) == AsLossy(C.Rounds(s, extras).value)
    decreases |extras|
  {
    if extras != [] {
      RoundInside(s, extras[0]);
      RoundWellFormed(s, extras[0]);
      hide L.Step, L.Possible, WellFormed, C.Round, C.Answered, L.LegalRun, L.After;
      RoundsInside(C.Round(s, extras[0]), extras[1..]);
      ThreeEvents(AsLossy(s), L.Load, L.Arrives(extras[0]), L.AckArrives, NothingLost(extras[1..]));
    }
  }

  lemma RoundWellFormed(s: C.System, extra: nat)
    requires C.Answered(s)
    ensures WellFormed(C.Round(s, extra).e)
  {
    hide WellFormed, OnReply, Exchange;
    ExchangeAnswers(s.bus, s.queue[0], extra);
    OnReplyWellFormed(s.e, Exchange(s.bus, s.queue[0], extra).1[0]);
  }

  lemma RingReset(cls: seq<byte>, i: nat)
    requires i < |cls|
    ensures var ds := C.Ring(cls, 0, 0, |cls|);
      |ds| == |cls| && ds[i] == Device(-1, false, true, cls[i])
  {}

  lemma StartInside(s: C.System, cls: seq<byte>)
    requires C.JustReset(s, cls)
    ensures L.JustReset(AsLossy(s))
  {
    hide WellFormed, C.Ring;
    forall i | 0 <= i < |s.bus.devices| ensures s.bus.devices[i] == Device(-1, false, true, s.bus.devices[i].cls) {
      RingReset(cls, i);
    }
  }

  /** So the safety results speak of a bus that can finish: without losses it does, with up to 125 devices. */
  lemma LossyBusCanComplete(s: C.System, cls: seq<byte>, extras: seq<nat>)
    requires C.JustReset(s, cls) && |cls| <= 125 && |extras| == 4 * |cls| + 7
    ensures L.JustReset(AsLossy(s)) && L.LegalRun(AsLossy(s), NothingLost(extras))
    ensures var end := L.After(AsLossy(s), NothingLost(extras));
      end.inFlight == None && end.acks == [] && C.Complete(C.System(end.e, end.queue, end.bus), cls, s.bus.gw.cls)
  {
    StartInside(s, cls);
    C.EnumerationCompletes(s, cls, extras);
    hide C.Complete, C.Rounds;
    RoundsInside(s, extras);
  }
}
