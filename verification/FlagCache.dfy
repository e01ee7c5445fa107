/** libsric's cache of notification flags against the daemon's registry: any number of clients, each with its
    own cache, calling in any order (libsric/sric.c, sricd/ipc.c). */
module FlagCache {
  import opened Bytes
  import opened NoteRegistry
  import opened Ipc

  /** check_address */
  function CheckAddress(address: int, allowBroadcast: bool): SricError {
    if address < 0 then NoSuchAddress
    else if address == 0 && !allowBroadcast then BroadcastAddress
    else if address == 1 then Loop
    else if address >= HIGH_ADDRESS then NoSuchAddress
    else NoError
  }

  /** Which addresses libsric lets through, and what it says of the others. */
  lemma AddressesMean(address: int, allowBroadcast: bool)
    ensures CheckAddress(address, allowBroadcast) == NoError
       <==> 2 <= address < HIGH_ADDRESS || (address == 0 && allowBroadcast)
    ensures CheckAddress(address, allowBroadcast) == Loop <==> address == 1
    ensures CheckAddress(address, allowBroadcast) == NoSuchAddress <==> address < 0 || address >= HIGH_ADDRESS
  {}

  predicate Usable(device: int) { CheckAddress(device, false) == NoError }

  // ----- The system -----

  function Zeros(n: nat): (z: seq<bv64>)
    ensures |z| == n && forall i :: 0 <= i < n ==> z[i] == 0
  {
    if n == 0 then [] else Zeros(n - 1) + [0]
  }

  datatype System = System(registry: Registry, caches: map<nat, seq<bv64>>) {
    predicate Sized() { registry.Sized() && forall k :: k in caches ==> |caches[k]| == HIGH_ADDRESS }
  }

  const FRESH := System(NOBODY, map[])

  function CacheOf(s: System, k: nat): (c: seq<bv64>)
    requires s.Sized()
    ensures |c| == HIGH_ADDRESS
  {
    if k in s.caches then s.caches[k] else Zeros(HIGH_ADDRESS)
  }

  function Cached(s: System, k: nat, a: nat): bv64
    requires s.Sized() && a < HIGH_ADDRESS
  {
    CacheOf(s, k)[a]
  }

  /** The daemon's answer to a flags command, from its bytes. */
  function Serve(r: Registry, devices: set<nat>, k: nat, bytes: seq<byte>, wild: bv64): (Registry, byte)
    requires r.Sized() && |bytes| == 11 && OfBe16(bytes[1], bytes[2]) < ADDRESSES
  {
    var device := OfBe16(bytes[1], bytes[2]);
    if device !in devices then (r, E_BADADDR)
    else (OnSet(r, k, device, FlagsRead(bytes[3..]), wild), E_SUCCESS)
  }

  lemma ServeFlags(r: Registry, devices: set<nat>, k: nat, device: nat, flags: bv64, wild: bv64)
    requires r.Sized() && device < ADDRESSES
    ensures var bytes := FlagsCommand(device, flags);
      && |bytes| == 11 && OfBe16(bytes[1], bytes[2]) == device
      && Serve(r, devices, k, bytes, wild)
         == if device in devices then (OnSet(r, k, device, flags, wild), E_SUCCESS) else (r, E_BADADDR)
  {
    var bytes := FlagsCommand(device, flags);
    Be16RoundTrip(device);
    FlagsRoundTrip(flags);
    assert bytes[3..] == FlagBytes(flags);
    hide FlagBytes, FlagsRead, OnSet;
  }

  datatype Call = SetNotes(client: nat, device: int, flags: bv64) | UnregisterAll(client: nat)

  /** Whether the call sends a command, rather than fail at once or find nothing changed. */
  predicate Sends(s: System, c: Call)
    requires s.Sized()
  {
    c.UnregisterAll? || (Usable(c.device) && Cached(s, c.client, c.device) != c.flags)
  }

  /** The daemon's reply to the command that the call sends. */
  function Result(s: System, devices: set<nat>, c: Call, wild: bv64): byte
    requires s.Sized() && Sends(s, c)
  {
    if c.UnregisterAll? then E_SUCCESS
    else
      ServeFlags(s.registry, devices, c.client, c.device, c.flags, wild);
      Serve(s.registry, devices, c.client, FlagsCommand(c.device, c.flags), wild).1
  }

  /** The cache is written before the command is sent, and stays written whatever the reply. */
  function Next(s: System, devices: set<nat>, c: Call, wild: bv64): (s': System)
    requires s.Sized()
    ensures s'.Sized()
  {
    if !Sends(s, c) then s
    else if c.UnregisterAll? then
      System(ClearFrom(s.registry, c.client, 2, wild), s.caches[c.client := Zeros(HIGH_ADDRESS)])
    else
      ServeFlags(s.registry, devices, c.client, c.device, c.flags, wild);
      System(Serve(s.registry, devices, c.client, FlagsCommand(c.device, c.flags), wild).0,
             s.caches[c.client := CacheOf(s, c.client)[c.device := c.flags]])
  }

  function After(cs: seq<Call>, devices: set<nat>, wild: bv64): (s: System)
    ensures s.Sized()
    decreases |cs|
  {
    if cs == [] then FRESH else Next(After(cs[..|cs| - 1], devices, wild), devices, cs[|cs| - 1], wild)
  }

  // ----- Both sides, call by call -----

  /** What client j last asked to have at address a. */
  function LastWanted(cs: seq<Call>, j: nat, a: nat): bv64
    decreases |cs|
  {
    if cs == [] then NO_FLAGS
    else if Concerns(cs[|cs| - 1], j, a) then WantedBy(cs[|cs| - 1])
    else LastWanted(cs[..|cs| - 1], j, a)
  }

  predicate Concerns(c: Call, j: nat, a: nat) {
    c.client == j && (c.UnregisterAll? || c.device == a)
  }

  function WantedBy(c: Call): bv64 { if c.SetNotes? then c.flags else NO_FLAGS }

  /** Both sides at (j, a), given what was last wanted there. */
  predicate Tracks(s: System, devices: set<nat>, j: nat, a: nat, wanted: bv64)
    requires s.Sized() && a < HIGH_ADDRESS
  {
    && Cached(s, j, a) == wanted
    && Flags(s.registry, j, a) == if a in devices then wanted else NO_FLAGS
  }

  lemma CacheStep(s: System, devices: set<nat>, c: Call, wild: bv64, j: nat, a: nat)
    requires s.Sized() && 2 <= a < HIGH_ADDRESS
    ensures Cached(Next(s, devices, c, wild), j, a) == if Concerns(c, j, a) then WantedBy(c) else Cached(s, j, a)
  {
    hide OnSet, ClearFrom, Serve, FlagsCommand;
  }

  lemma SetTracks(s: System, devices: set<nat>, c: Call, wild: bv64, j: nat, a: nat)
    requires s.Sized() && AllProper(s.registry) && 2 <= a < HIGH_ADDRESS && c.SetNotes? && Sends(s, c)
    ensures var r := Next(s, devices, c, wild).registry;
      && AllProper(r)
      && Flags(r, j, a)
         == if Concerns(c, j, a) && a in devices then WantedBy(c) else Flags(s.registry, j, a)
  {
    ServeFlags(s.registry, devices, c.client, c.device, c.flags, wild);
    SetKeeps(s.registry, c.client, c.device, c.flags, wild, j, a);
    hide OnSet, ClearFrom, Serve, FlagsCommand, Flags, AllProper;
  }

  lemma NextTracks(s: System, devices: set<nat>, c: Call, wild: bv64, j: nat, a: nat, wanted: bv64)
    requires s.Sized() && AllProper(s.registry) && 2 <= a < HIGH_ADDRESS && Tracks(s, devices, j, a, wanted)
    ensures var s' := Next(s, devices, c, wild);
      AllProper(s'.registry) && Tracks(s', devices, j, a, if Concerns(c, j, a) then WantedBy(c) else wanted)
  {
    CacheStep(s, devices, c, wild, j, a);
    if c.UnregisterAll? {
      ClearKeeps(s.registry, c.client, 2, wild, j, a);
      hide ClearFrom, Flags, AllProper, Cached;
    } else if Sends(s, c) {
      SetTracks(s, devices, c, wild, j, a);
      hide Next, Flags, AllProper, Cached, Sends;
    } else {
      hide Flags, AllProper, CacheOf;
    }
  }

  /** After any calls the cache holds what was last wanted, and the daemon holds the same for each existing
      device and nothing for any other address. */
  lemma {:induction false} BothSides(cs: seq<Call>, devices: set<nat>, wild: bv64, j: nat, a: nat)
    requires 2 <= a < HIGH_ADDRESS
    ensures AllProper(After(cs, devices, wild).registry)
    ensures Tracks(After(cs, devices, wild), devices, j, a, LastWanted(cs, j, a))
    decreases |cs|
  {
    if cs == [] {
      NobodyProper(j, a);
      hide AllProper, Flags;
    } else {
      var front, c := cs[..|cs| - 1], cs[|cs| - 1];
      BothSides(front, devices, wild, j, a);
      hide AllProper, Tracks, Next, Concerns, WantedBy;
      NextTracks(After(front, devices, wild), devices, c, wild, j, a, LastWanted(front, j, a));
    }
  }

  // ----- Coherence -----

  predicate Coherent(s: System, j: nat)
    requires s.Sized()
  {
    forall a :: 2 <= a < HIGH_ADDRESS ==> Cached(s, j, a) == Flags(s.registry, j, a)
  }

  /** A client's cache agrees with the daemon exactly when it last wanted nothing of every device that
      does not exist. */
  lemma CoherentIff(cs: seq<Call>, devices: set<nat>, wild: bv64, j: nat)
    ensures Coherent(After(cs, devices, wild), j)
       <==> forall a :: 2 <= a < HIGH_ADDRESS && a !in devices ==> LastWanted(cs, j, a) == NO_FLAGS
  {
    var s := After(cs, devices, wild);
    hide After, LastWanted, Cached, Flags;
    forall a: nat | 2 <= a < HIGH_ADDRESS
      ensures Cached(s, j, a) == Flags(s.registry, j, a) <==> a in devices || LastWanted(cs, j, a) == NO_FLAGS
    {
      BothSides(cs, devices, wild, j, a);
    }
  }

  /** Every command that client j sent in the run was answered with success. */
  predicate AllSucceeded(cs: seq<Call>, devices: set<nat>, wild: bv64, j: nat)
    decreases |cs|
  {
    cs == [] ||
      (var front, c := cs[..|cs| - 1], cs[|cs| - 1];
       var s := After(front, devices, wild);
       && AllSucceeded(front, devices, wild, j)
       && (c.client == j && Sends(s, c) ==> Result(s, devices, c, wild) == E_SUCCESS))
  }

  lemma RefusedIff(s: System, devices: set<nat>, c: Call, wild: bv64)
    requires s.Sized() && Sends(s, c)
    ensures Result(s, devices, c, wild) == E_SUCCESS <==> c.UnregisterAll? || c.device in devices
  {
    hide OnSet, Serve, FlagsCommand;
    if c.SetNotes? {
      ServeFlags(s.registry, devices, c.client, c.device, c.flags, wild);
    }
  }

  lemma {:induction false} NothingWantedOfMissing(cs: seq<Call>, devices: set<nat>, wild: bv64, j: nat, a: nat)
    requires AllSucceeded(cs, devices, wild, j) && 2 <= a < HIGH_ADDRESS && a !in devices
    ensures LastWanted(cs, j, a) == NO_FLAGS
    decreases |cs|
  {
    if cs != [] {
      var front, c := cs[..|cs| - 1], cs[|cs| - 1];
      var s := After(front, devices, wild);
      NothingWantedOfMissing(front, devices, wild, j, a);
      BothSides(front, devices, wild, j, a);
      if Sends(s, c) {
        RefusedIff(s, devices, c, wild);
      }
      hide Result, After, Flags, Cached;
    }
  }

  /** As long as no command of its own was refused, a client's cache is what the daemon has, whatever other
      clients do: skipping an unchanged update loses nothing. */
  lemma CoherentWhileSuccessful(cs: seq<Call>, devices: set<nat>, wild: bv64, j: nat)
    requires AllSucceeded(cs, devices, wild, j)
    ensures Coherent(After(cs, devices, wild), j)
  {
    CoherentIff(cs, devices, wild, j);
    hide AllSucceeded, After, LastWanted, Coherent;
    forall a: nat | 2 <= a < HIGH_ADDRESS && a !in devices ensures LastWanted(cs, j, a) == NO_FLAGS {
      NothingWantedOfMissing(cs, devices, wild, j, a);
    }
  }

  /** Asking twice for notes of a missing device: refused the first time, silently accepted the second. */
  lemma SecondAttemptPretends(k: nat, device: nat, flags: bv64, devices: set<nat>, wild: bv64)
    requires 2 <= device < HIGH_ADDRESS && device !in devices && flags != 0
    ensures var c := SetNotes(k, device, flags);
      var s := Next(FRESH, devices, c, wild);
      && Sends(FRESH, c) && Result(FRESH, devices, c, wild) == E_BADADDR
      && !Sends(s, c)
      && Flags(s.registry, k, device) == 0
  {
    var c := SetNotes(k, device, flags);
    ServeFlags(FRESH.registry, devices, k, device, flags, wild);
    CacheStep(FRESH, devices, c, wild, k, device);
    NobodyProper(k, device);
    hide OnSet, Serve, FlagsCommand, Flags;
  }
}
